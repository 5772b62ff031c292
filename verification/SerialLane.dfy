/**
 * The per-signer transaction queue (src/onchainTxSerialQueue.ts): lanes of tasks, each lane run by
 * one `drain` that awaits one task at a time. A step is what the code does between two awaits.
 */
module SerialLane {
  import opened Common
  import opened Text

  datatype Outcome = Resolved(value: int) | Rejected(reason: int)

  /** A queued task; `outcome` is what its function will give when it has run. */
  datatype Item = Item(id: nat, title: string, outcome: Outcome)

  /** A promise that was settled. */
  datatype Settled = Settled(id: nat, outcome: Outcome)

  /** `item` is the task that the running `drain` awaits; `settled` lists the settled promises, oldest first. */
  datatype Lane = Lane(queue: seq<Item>, inFlight: bool, item: Option<Item>, settled: seq<Settled>)

  const IDLE := Lane([], false, None, [])

  datatype Step = Enqueue(task: Item) | Finish

  function Depth(l: Lane): nat {
    |l.queue| + if l.inFlight then 1 else 0
  }

  /** The head of the `while` loop in `drain`: await the next task, or leave. */
  function Advance(l: Lane): Lane {
    if l.queue == [] then l.(inFlight := false, item := None)
    else l.(queue := l.queue[1..], item := Some(l.queue[0]))
  }

  function Next(l: Lane, step: Step): Lane {
    match step
    case Enqueue(task) =>
      var pushed := l.(queue := l.queue + [task]);
      if l.inFlight then pushed else Advance(pushed.(inFlight := true))
    case Finish =>
      match l.item
      case None => l
      case Some(t) => Advance(l.(settled := l.settled + [Settled(t.id, t.outcome)]))
  }

  /** A lane after a sequence of steps, from its creation. */
  function Run(steps: seq<Step>): Lane {
    RunFrom(IDLE, steps)
  }

  function RunFrom(l: Lane, steps: seq<Step>): Lane {
    if steps == [] then l else Next(RunFrom(l, steps[..|steps| - 1]), steps[|steps| - 1])
  }

  function Flatten(batches: seq<seq<Step>>): seq<Step> {
    if batches == [] then [] else Flatten(batches[..|batches| - 1]) + batches[|batches| - 1]
  }

  lemma {:induction false} RunFromConcat(l: Lane, a: seq<Step>, b: seq<Step>)
    ensures RunFrom(l, a + b) == RunFrom(RunFrom(l, a), b)
  {
    if b == [] {
      assert a + b == a;
    } else {
      RunFromConcat(l, a, b[..|b| - 1]);
      assert (a + b)[..|a + b| - 1] == a + b[..|b| - 1];
    }
  }

  class OnchainTxSerialLane {
    const laneKey: string
    var queue: seq<Item>
    var inFlight: bool
    var currentLabel: Option<string>
    var item: Option<Item>
    ghost var settled: seq<Settled>

    ghost predicate Valid()
      reads this
    {
      && (inFlight <==> item.Some?)
      && currentLabel == (if item.Some? then Some(item.value.title) else None)
    }

    ghost function State(): Lane
      reads this
    {
      Lane(queue, inFlight, item, settled)
    }

    constructor (key: string)
      ensures Valid() && State() == IDLE && laneKey == key
    {
      laneKey, queue, inFlight, currentLabel, item, settled := key, [], false, None, None, [];
    }

    method GetDepth() returns (depth: nat)
      ensures depth == Depth(State())
    {
      depth := |queue| + if inFlight then 1 else 0;
    }

    method EnqueueTask(task: Item)
      requires Valid()
      modifies this
      ensures Valid() && State() == Next(old(State()), Enqueue(task))
    {
      queue := queue + [task];
      if inFlight { return; }
      inFlight := true;
      DrainOn();
    }

    /** `drain` up to its next await or its end. */
    method DrainOn()
      requires inFlight
      modifies this
      ensures Valid() && State() == Advance(old(State()))
    {
      if |queue| > 0 {
        item, queue := Some(queue[0]), queue[1..];
        currentLabel := Some(item.value.title);
      } else {
        item, currentLabel := None, None;
        inFlight := false;
      }
    }

    /** The awaited task has run: its promise is settled, whatever the outcome, and the loop goes on. */
    method TaskDone()
      requires Valid()
      modifies this
      ensures Valid() && State() == Next(old(State()), Finish)
    {
      if item.None? { return; }
      settled := settled + [Settled(item.value.id, item.value.outcome)];
      currentLabel := None;
      DrainOn();
    }

    method Perform(step: Step)
      requires Valid()
      modifies this
      ensures Valid() && State() == Next(old(State()), step)
    {
      match step
      case Enqueue(task) => EnqueueTask(task);
      case Finish => TaskDone();
    }

    /** Polls until the lane is idle or the clock passes the limit. `now` are the clock readings of the
        polls and `during` what happens on the lane in each pause; the readings reach the limit. */
    method WaitIdle(maxWaitMs: int, started: int, now: seq<int>, during: seq<seq<Step>>)
      returns (polls: nat, timedOut: bool)
      requires Valid() && 0 < |now| == |during| && now[|now| - 1] - started >= maxWaitMs
      modifies this
      ensures Valid() && polls < |now|
      ensures State() == RunFrom(old(State()), Flatten(during[..polls]))
      ensures timedOut <==> Depth(State()) > 0
      ensures timedOut ==> now[polls] - started >= maxWaitMs
      ensures forall k :: 0 <= k < polls ==> now[k] - started < maxWaitMs
    {
      polls, timedOut := 0, false;
      assert during[..0] == [];
      var depth := GetDepth();
      while depth > 0
        invariant Valid() && polls < |now| && !timedOut && depth == Depth(State())
        invariant State() == RunFrom(old(State()), Flatten(during[..polls]))
        invariant forall k :: 0 <= k < polls ==> now[k] - started < maxWaitMs
        decreases |now| - polls
      {
        if now[polls] - started >= maxWaitMs { timedOut := true; return; }
        Pause(during[polls]);
        RunFromConcat(old(State()), Flatten(during[..polls]), during[polls]);
        assert during[..polls + 1][..polls] == during[..polls];
        polls := polls + 1;
        depth := GetDepth();
      }
    }

    /** What happens on the lane while a poll sleeps. */
    method Pause(steps: seq<Step>)
      requires Valid()
      modifies this
      ensures Valid() && State() == RunFrom(old(State()), steps)
    {
      for i := 0 to |steps|
        invariant Valid() && State() == RunFrom(old(State()), steps[..i])
      {
        assert steps[..i + 1][..i] == steps[..i];
        Perform(steps[i]);
      }
      assert steps[..|steps|] == steps;
    }
  }

  // ---- One lane ----

  /** The tasks enqueued by a sequence of steps, in order. */
  function Enqueued(steps: seq<Step>): seq<Item> {
    if steps == [] then []
    else Enqueued(steps[..|steps| - 1]) + (if steps[|steps| - 1].Enqueue? then [steps[|steps| - 1].task] else [])
  }

  ghost predicate Scheduled(l: Lane, tasks: seq<Item>) {
    var done := |l.settled|;
    && done <= |tasks|
    && (forall i :: 0 <= i < done ==> l.settled[i] == Settled(tasks[i].id, tasks[i].outcome))
    && l.item == (if done < |tasks| then Some(tasks[done]) else None)
    && l.queue == (if done < |tasks| then tasks[done + 1..] else [])
    && l.inFlight == (done < |tasks|)
  }

  /** Whatever the interleaving of enqueues and completions, the lane is determined by the tasks enqueued and
      the number settled: the first ones are settled, in order, each once and with its own outcome, also after
      failures; the next one, and no other, is running; the rest wait in order; and the depth counts the
      unsettled ones. */
  lemma {:induction false} LaneIsFifo(steps: seq<Step>)
    ensures Scheduled(Run(steps), Enqueued(steps))
    ensures Depth(Run(steps)) == |Enqueued(steps)| - |Run(steps).settled|
  {
    if steps != [] {
      var front, last := steps[..|steps| - 1], steps[|steps| - 1];
      LaneIsFifo(front);
      if last.Enqueue? {
        EnqueueKeepsSchedule(Run(front), Enqueued(front), last.task);
      } else {
        FinishKeepsSchedule(Run(front), Enqueued(front));
        assert Enqueued(front) + [] == Enqueued(front);
      }
    }
  }

  lemma EnqueueKeepsSchedule(l: Lane, tasks: seq<Item>, task: Item)
    requires Scheduled(l, tasks)
    ensures Scheduled(Next(l, Enqueue(task)), tasks + [task])
  {
    assert l.inFlight ==> l.queue + [task] == (tasks + [task])[|l.settled| + 1..];
    assert !l.inFlight ==> l.queue + [task] == [task];
  }

  lemma FinishKeepsSchedule(l: Lane, tasks: seq<Item>)
    requires Scheduled(l, tasks)
    ensures Scheduled(Next(l, Finish), tasks)
  {
  }

  /** Nothing is forgotten: as many completions as there are unsettled tasks settle them all and leave the lane idle. */
  lemma {:induction false} EveryTaskSettles(steps: seq<Step>, finishes: seq<Step>)
    requires forall i :: 0 <= i < |finishes| ==> finishes[i] == Finish
    ensures |Run(steps + finishes).settled| ==
      if |Run(steps).settled| + |finishes| < |Enqueued(steps)|
      then |Run(steps).settled| + |finishes| else |Enqueued(steps)|
    ensures Enqueued(steps + finishes) == Enqueued(steps)
  {
    if finishes == [] {
      assert steps + finishes == steps;
      LaneIsFifo(steps);
    } else {
      var rest := finishes[..|finishes| - 1];
      EveryTaskSettles(steps, rest);
      assert (steps + finishes)[..|steps + finishes| - 1] == steps + rest;
      LaneIsFifo(steps + rest);
      assert Enqueued(steps + rest) + [] == Enqueued(steps + rest);
    }
  }

  /** Steps only append to the settled promises. */
  lemma {:induction false} SettledForGood(l: Lane, steps: seq<Step>)
    ensures l.settled <= RunFrom(l, steps).settled
  {
    if steps != [] { SettledForGood(l, steps[..|steps| - 1]); }
  }

  /** A promise that is settled at some moment has the outcome of its own task, and has it at every later moment. */
  lemma OutcomeForGood(before: seq<Step>, after: seq<Step>, i: nat)
    requires i < |Run(before).settled|
    ensures i < |Enqueued(before)| && i < |Run(before + after).settled|
    ensures Run(before + after).settled[i] == Settled(Enqueued(before)[i].id, Enqueued(before)[i].outcome)
  {
    LaneIsFifo(before);
    RunFromConcat(IDLE, before, after);
    SettledForGood(Run(before), after);
  }

  // ---- All lanes ----

  type Lanes = map<string, Lane>

  /** A call on a lane key as the caller wrote it, or a completion there. */
  datatype Event = Event(key: string, step: Step)

  function NormalizeLaneKey(key: string): string {
    Lower(Trim(key))
  }

  function LaneOf(lanes: Lanes, key: string): Lane {
    if key in lanes then lanes[key] else IDLE
  }

  /** A lane is created by the first enqueue under its normalised key. */
  function NextAll(lanes: Lanes, e: Event): Lanes {
    var key := NormalizeLaneKey(e.key);
    if key !in lanes && e.step.Finish? then lanes else lanes[key := Next(LaneOf(lanes, key), e.step)]
  }

  function RunAll(lanes: Lanes, events: seq<Event>): Lanes {
    if events == [] then lanes else NextAll(RunAll(lanes, events[..|events| - 1]), events[|events| - 1])
  }

  /** The steps of one lane. */
  function StepsFor(events: seq<Event>, key: string): seq<Step> {
    if events == [] then []
    else
      var e := events[|events| - 1];
      StepsFor(events[..|events| - 1], key) + if NormalizeLaneKey(e.key) == key then [e.step] else []
  }

  /** Lanes do not affect each other: each is what its own steps alone make of it. */
  lemma {:induction false} LanesAreIndependent(lanes: Lanes, events: seq<Event>, key: string)
    ensures LaneOf(RunAll(lanes, events), key) == RunFrom(LaneOf(lanes, key), StepsFor(events, key))
  {
    if events != [] {
      var front, e := events[..|events| - 1], events[|events| - 1];
      LanesAreIndependent(lanes, front, key);
      var own := StepsFor(front, key);
      if NormalizeLaneKey(e.key) == key {
        assert (own + [e.step])[..|own|] == own;
      } else {
        assert own + [] == own;
      }
    }
  }

  /** Two spellings of a key lead to one lane exactly when they name one signer, that is, when they differ at most in
      outer blanks and in the case of ASCII letters; and then no call tells them apart. */
  lemma OneLanePerSigner(lanes: Lanes, a: string, b: string, step: Step)
    ensures NormalizeLaneKey(a) == NormalizeLaneKey(b) <==> SameName(a, b)
    ensures SameName(a, b) ==> NextAll(lanes, Event(a, step)) == NextAll(lanes, Event(b, step))
  {
    OneNameOneText(a, b);
  }

  /** `waitForAllOnchainTxQueues`: one lane after the other is waited for; `during` is what happens meanwhile. */
  datatype Wait = Wait(key: string, during: seq<Event>)

  function AfterWaits(lanes: Lanes, waits: seq<Wait>): Lanes
    decreases |waits|
  {
    if waits == [] then lanes else AfterWaits(RunAll(lanes, waits[0].during), waits[1..])
  }

  /** Every wait ended with its lane idle. */
  ghost predicate EachWaitSucceeded(lanes: Lanes, waits: seq<Wait>)
    decreases |waits|
  {
    waits != [] ==>
      var after := RunAll(lanes, waits[0].during);
      Depth(LaneOf(after, waits[0].key)) == 0 && EachWaitSucceeded(after, waits[1..])
  }

  /** The enqueues among some events. */
  function Enqueues(events: seq<Event>): seq<Event> {
    if events == [] then []
    else Enqueues(events[..|events| - 1]) + if events[|events| - 1].step.Enqueue? then [events[|events| - 1]] else []
  }

  /** During no wait is anything enqueued on a lane that was waited for before. */
  ghost predicate NoLate(waits: seq<Wait>) {
    forall i, j :: 0 <= i < j < |waits| ==> NoneFor(Enqueues(waits[j].during), waits[i].key)
  }

  ghost predicate NoneFor(events: seq<Event>, key: string) {
    forall e :: e in events ==> NormalizeLaneKey(e.key) != key
  }

  /** An idle lane on which only completions are reported stays as it is. */
  lemma {:induction false} IdleStaysIdle(lanes: Lanes, events: seq<Event>, key: string)
    requires Depth(LaneOf(lanes, key)) == 0 && LaneOf(lanes, key).item.None?
    requires NoneFor(Enqueues(events), key)
    ensures LaneOf(RunAll(lanes, events), key) == LaneOf(lanes, key)
  {
    if events != [] {
      assert forall e :: e in Enqueues(events[..|events| - 1]) ==> e in Enqueues(events);
      assert events[|events| - 1].step.Enqueue? ==> events[|events| - 1] in Enqueues(events);
      IdleStaysIdle(lanes, events[..|events| - 1], key);
    }
  }

  /** A lane awaits a task exactly while `inFlight` is set, and then only does it have a queue. */
  ghost predicate Sound(l: Lane) {
    (l.inFlight <==> l.item.Some?) && (l.queue != [] ==> l.inFlight)
  }

  ghost predicate Consistent(lanes: Lanes) {
    forall k :: k in lanes ==> Sound(lanes[k])
  }

  lemma {:induction false} StaysConsistent(lanes: Lanes, events: seq<Event>)
    requires Consistent(lanes)
    ensures Consistent(RunAll(lanes, events))
  {
    if events != [] { StaysConsistent(lanes, events[..|events| - 1]); }
  }

  lemma {:induction false} WaitedForStaysIdle(lanes: Lanes, waits: seq<Wait>, key: string)
    requires Depth(LaneOf(lanes, key)) == 0 && LaneOf(lanes, key).item.None?
    requires forall j :: 0 <= j < |waits| ==> NoneFor(Enqueues(waits[j].during), key)
    ensures LaneOf(AfterWaits(lanes, waits), key) == LaneOf(lanes, key)
    decreases |waits|
  {
    if waits != [] {
      IdleStaysIdle(lanes, waits[0].during, key);
      WaitedForStaysIdle(RunAll(lanes, waits[0].during), waits[1..], key);
    }
  }

  /** When nothing is enqueued on a lane after it was waited for, and no wait times out, all waited-for lanes are
      idle at the end, whatever is enqueued on the lane being waited for and on lanes still to come. */
  lemma {:induction false} ShutdownWaitLeavesLanesIdle(lanes: Lanes, waits: seq<Wait>, i: nat)
    requires Consistent(lanes) && NoLate(waits) && EachWaitSucceeded(lanes, waits) && i < |waits|
    ensures Depth(LaneOf(AfterWaits(lanes, waits), waits[i].key)) == 0
    decreases |waits|
  {
    var after, rest := RunAll(lanes, waits[0].during), waits[1..];
    StaysConsistent(lanes, waits[0].during);
    assert forall j :: 0 <= j < |rest| ==> rest[j] == waits[j + 1];
    if i == 0 {
      WaitedForStaysIdle(after, rest, waits[0].key);
    } else {
      assert forall k, j :: 0 <= k < j < |rest| ==> NoneFor(Enqueues(rest[j].during), rest[k].key);
      ShutdownWaitLeavesLanesIdle(after, rest, i - 1);
    }
  }

  // -- A late enqueue can always go wrong: completions reported in the wait for their lane and in no other --

  function Finishes(key: string, n: nat): seq<Event> {
    if n == 0 then [] else Finishes(key, n - 1) + [Event(key, Finish)]
  }

  /** The enqueues of a plan, each wait being followed by just the completions that make its lane idle. */
  function Drained(lanes: Lanes, plan: seq<Wait>): seq<Wait>
    decreases |plan|
  {
    if plan == [] then []
    else
      var during := DrainedDuring(lanes, plan[0]);
      [Wait(plan[0].key, during)] + Drained(RunAll(lanes, during), plan[1..])
  }

  function DrainedDuring(lanes: Lanes, w: Wait): seq<Event> {
    Enqueues(w.during) + Finishes(w.key, Depth(LaneOf(RunAll(lanes, Enqueues(w.during)), w.key)))
  }

  lemma {:induction false} RunAllConcat(lanes: Lanes, a: seq<Event>, b: seq<Event>)
    ensures RunAll(lanes, a + b) == RunAll(RunAll(lanes, a), b)
  {
    if b == [] {
      assert a + b == a;
    } else {
      RunAllConcat(lanes, a, b[..|b| - 1]);
      assert (a + b)[..|a + b| - 1] == a + b[..|b| - 1];
    }
  }

  lemma {:induction false} EnqueuesAgain(events: seq<Event>)
    ensures Enqueues(Enqueues(events)) == Enqueues(events)
    ensures forall e :: e in Enqueues(events) ==> e.step.Enqueue?
  {
    if events != [] {
      var front, e := events[..|events| - 1], events[|events| - 1];
      EnqueuesAgain(front);
      if e.step.Enqueue? {
        assert (Enqueues(front) + [e])[..|Enqueues(front)|] == Enqueues(front);
      } else {
        assert Enqueues(front) + [] == Enqueues(front);
      }
    }
  }

  lemma {:induction false} EnqueuesConcat(a: seq<Event>, b: seq<Event>)
    ensures Enqueues(a + b) == Enqueues(a) + Enqueues(b)
  {
    if b == [] {
      assert a + b == a && Enqueues(a) + [] == Enqueues(a);
    } else {
      var front, all := b[..|b| - 1], a + b;
      EnqueuesConcat(a, front);
      assert all[..|all| - 1] == a + front && all[|all| - 1] == b[|b| - 1];
    }
  }

  lemma {:induction false} FinishesAreNoEnqueues(key: string, n: nat)
    ensures Enqueues(Finishes(key, n)) == []
  {
    if n > 0 {
      var all := Finishes(key, n);
      FinishesAreNoEnqueues(key, n - 1);
      assert all[..|all| - 1] == Finishes(key, n - 1) && all[|all| - 1] == Event(key, Finish);
    }
  }

  lemma FinishOne(lanes: Lanes, key: string, other: string)
    requires Consistent(lanes) && NormalizeLaneKey(key) == key && Depth(LaneOf(lanes, key)) > 0
    ensures Depth(LaneOf(NextAll(lanes, Event(key, Finish)), key)) == Depth(LaneOf(lanes, key)) - 1
    ensures other != key ==> LaneOf(NextAll(lanes, Event(key, Finish)), other) == LaneOf(lanes, other)
  {
    assert key in lanes && Sound(lanes[key]);
  }

  lemma {:induction false} FinishesLower(lanes: Lanes, key: string, n: nat, other: string)
    requires Consistent(lanes) && NormalizeLaneKey(key) == key && n <= Depth(LaneOf(lanes, key))
    ensures Depth(LaneOf(RunAll(lanes, Finishes(key, n)), key)) == Depth(LaneOf(lanes, key)) - n
    ensures other != key ==> LaneOf(RunAll(lanes, Finishes(key, n)), other) == LaneOf(lanes, other)
  {
    if n > 0 {
      var all := Finishes(key, n);
      FinishesLower(lanes, key, n - 1, other);
      StaysConsistent(lanes, Finishes(key, n - 1));
      FinishOne(RunAll(lanes, Finishes(key, n - 1)), key, other);
      assert all[..|all| - 1] == Finishes(key, n - 1) && all[|all| - 1] == Event(key, Finish);
    }
  }

  /** Enqueues raise the depth of their own lane and of no other. */
  lemma {:induction false} EnqueuesRaise(lanes: Lanes, events: seq<Event>, key: string)
    requires Consistent(lanes) && forall e :: e in events ==> e.step.Enqueue?
    ensures Depth(LaneOf(RunAll(lanes, events), key)) >= Depth(LaneOf(lanes, key))
    ensures !NoneFor(events, key) ==> Depth(LaneOf(RunAll(lanes, events), key)) > Depth(LaneOf(lanes, key))
  {
    if events != [] {
      var front, e := events[..|events| - 1], events[|events| - 1];
      assert events == front + [e];
      EnqueuesRaise(lanes, front, key);
      StaysConsistent(lanes, front);
      EnqueueRaisesOne(RunAll(lanes, front), e, key);
    }
  }

  lemma EnqueueRaisesOne(lanes: Lanes, e: Event, key: string)
    requires Consistent(lanes) && e.step.Enqueue?
    ensures Depth(LaneOf(NextAll(lanes, e), key))
         == Depth(LaneOf(lanes, key)) + (if NormalizeLaneKey(e.key) == key then 1 else 0)
  {
  }

  ghost predicate NotAwaited(plan: seq<Wait>, key: string) {
    forall j :: 0 <= j < |plan| ==> plan[j].key != key
  }

  /** The keys of different lanes, as the map holds them. */
  ghost predicate LaneKeys(plan: seq<Wait>)
    decreases |plan|
  {
    plan != [] ==>
      NormalizeLaneKey(plan[0].key) == plan[0].key && NotAwaited(plan[1..], plan[0].key) && LaneKeys(plan[1..])
  }

  lemma LaneKeysTail(plan: seq<Wait>)
    requires LaneKeys(plan) && plan != []
    ensures LaneKeys(plan[1..]) && forall j :: 0 < j < |plan| ==> plan[j].key != plan[0].key
  {
    assert forall j :: 0 <= j < |plan[1..]| ==> plan[1..][j] == plan[j + 1];
  }

  /** One drained wait: it succeeds, and other lanes see only its enqueues. */
  lemma DrainedWait(lanes: Lanes, w: Wait, other: string)
    requires Consistent(lanes) && NormalizeLaneKey(w.key) == w.key
    ensures var after := RunAll(lanes, DrainedDuring(lanes, w));
      && Consistent(after) && Depth(LaneOf(after, w.key)) == 0
      && (other != w.key ==>
            && Depth(LaneOf(after, other)) >= Depth(LaneOf(lanes, other))
            && (!NoneFor(Enqueues(w.during), other) ==> Depth(LaneOf(after, other)) > Depth(LaneOf(lanes, other))))
    ensures Enqueues(DrainedDuring(lanes, w)) == Enqueues(w.during)
  {
    var es := Enqueues(w.during);
    var mid := RunAll(lanes, es);
    EnqueuesAgain(w.during);
    EnqueuesConcat(es, Finishes(w.key, Depth(LaneOf(mid, w.key))));
    FinishesAreNoEnqueues(w.key, Depth(LaneOf(mid, w.key)));
    RunAllConcat(lanes, es, Finishes(w.key, Depth(LaneOf(mid, w.key))));
    StaysConsistent(lanes, es);
    StaysConsistent(lanes, DrainedDuring(lanes, w));
    FinishesLower(mid, w.key, Depth(LaneOf(mid, w.key)), other);
    EnqueuesRaise(lanes, es, other);
  }

  /** Two schedules of the same waits with the same enqueues in each. */
  ghost predicate SameEnqueues(a: seq<Wait>, b: seq<Wait>) {
    |a| == |b| && forall i :: 0 <= i < |a| ==> a[i].key == b[i].key && Enqueues(a[i].during) == Enqueues(b[i].during)
  }

  lemma {:induction false} DrainedIsSchedule(lanes: Lanes, plan: seq<Wait>)
    requires Consistent(lanes) && LaneKeys(plan)
    ensures SameEnqueues(Drained(lanes, plan), plan) && EachWaitSucceeded(lanes, Drained(lanes, plan))
    decreases |plan|
  {
    if plan != [] {
      var during := DrainedDuring(lanes, plan[0]);
      var after := RunAll(lanes, during);
      LaneKeysTail(plan);
      DrainedWait(lanes, plan[0], plan[0].key);
      DrainedIsSchedule(after, plan[1..]);
      assert Drained(lanes, plan)[1..] == Drained(after, plan[1..]);
    }
  }

  lemma DrainedStep(lanes: Lanes, plan: seq<Wait>)
    requires Consistent(lanes) && LaneKeys(plan) && plan != []
    ensures var after := RunAll(lanes, DrainedDuring(lanes, plan[0]));
      && Consistent(after) && Depth(LaneOf(after, plan[0].key)) == 0 && LaneKeys(plan[1..])
      && AfterWaits(lanes, Drained(lanes, plan)) == AfterWaits(after, Drained(after, plan[1..]))
    ensures NotAwaited(plan[1..], plan[0].key)
  {
    var after := RunAll(lanes, DrainedDuring(lanes, plan[0]));
    LaneKeysTail(plan);
    DrainedWait(lanes, plan[0], plan[0].key);
    assert Drained(lanes, plan)[1..] == Drained(after, plan[1..]);
  }

  /** A lane that is not waited for any more only fills up. */
  lemma {:induction false} UnawaitedFills(lanes: Lanes, plan: seq<Wait>, key: string)
    requires Consistent(lanes) && LaneKeys(plan) && NotAwaited(plan, key)
    ensures Depth(LaneOf(AfterWaits(lanes, Drained(lanes, plan)), key)) >= Depth(LaneOf(lanes, key))
    decreases |plan|
  {
    if plan != [] {
      DrainedStep(lanes, plan);
      DrainedWait(lanes, plan[0], key);
      UnawaitedFills(RunAll(lanes, DrainedDuring(lanes, plan[0])), plan[1..], key);
    }
  }

  /** A task enqueued during a wait is still there at the end when its lane is not waited for from then on. */
  lemma {:induction false} LateTaskStays(lanes: Lanes, plan: seq<Wait>, key: string, j: nat)
    requires Consistent(lanes) && LaneKeys(plan)
    requires j < |plan| && NotAwaited(plan[j..], key) && !NoneFor(Enqueues(plan[j].during), key)
    ensures Depth(LaneOf(AfterWaits(lanes, Drained(lanes, plan)), key)) > 0
    decreases |plan|
  {
    var after, rest := RunAll(lanes, DrainedDuring(lanes, plan[0])), plan[1..];
    DrainedStep(lanes, plan);
    if j == 0 {
      assert plan[0..] == plan && plan[0].key != key;
      DrainedWait(lanes, plan[0], key);
      UnawaitedFills(after, rest, key);
    } else {
      assert rest[j - 1..] == plan[j..] && rest[j - 1] == plan[j];
      LateTaskStays(after, rest, key, j - 1);
    }
  }

  lemma {:induction false} NotAwaitedLater(plan: seq<Wait>, i: nat, j: nat)
    requires LaneKeys(plan) && i < j <= |plan|
    ensures NotAwaited(plan[j..], plan[i].key)
    decreases |plan|
  {
    var rest := plan[1..];
    assert plan[j..] == rest[j - 1..];
    if i > 0 { NotAwaitedLater(rest, i - 1, j - 1); }
  }

  lemma LateLaneIsBusy(lanes: Lanes, plan: seq<Wait>, i: nat, j: nat)
    requires Consistent(lanes) && LaneKeys(plan) && i < j < |plan|
    requires !NoneFor(Enqueues(plan[j].during), plan[i].key)
    ensures Depth(LaneOf(AfterWaits(lanes, Drained(lanes, plan)), plan[i].key)) > 0
  {
    NotAwaitedLater(plan, i, j);
    LateTaskStays(lanes, plan, plan[i].key, j);
  }

  ghost predicate AllIdleAfter(lanes: Lanes, waits: seq<Wait>) {
    forall i :: 0 <= i < |waits| ==> Depth(LaneOf(AfterWaits(lanes, waits), waits[i].key)) == 0
  }

  /** Waiting for one lane after the other leaves every waited-for lane idle, however the completions fall, exactly
      when nothing is enqueued on a lane after it was waited for. */
  lemma ShutdownWaitIdleIffNoLate(lanes: Lanes, plan: seq<Wait>)
    requires Consistent(lanes) && LaneKeys(plan)
    ensures (forall waits: seq<Wait> ::
              SameEnqueues(waits, plan) && EachWaitSucceeded(lanes, waits) ==> AllIdleAfter(lanes, waits))
       <==> NoLate(plan)
  {
    if NoLate(plan) {
      forall waits: seq<Wait> | SameEnqueues(waits, plan) && EachWaitSucceeded(lanes, waits)
        ensures AllIdleAfter(lanes, waits)
      {
        NoLateIsEnough(lanes, plan, waits);
      }
    } else {
      var i, j :| 0 <= i < j < |plan| && !NoneFor(Enqueues(plan[j].during), plan[i].key);
      LateEnqueueCanStay(lanes, plan, i, j);
    }
  }

  lemma NoLateIsEnough(lanes: Lanes, plan: seq<Wait>, waits: seq<Wait>)
    requires Consistent(lanes) && NoLate(plan) && SameEnqueues(waits, plan) && EachWaitSucceeded(lanes, waits)
    ensures AllIdleAfter(lanes, waits)
  {
    assert NoLate(waits);
    forall i | 0 <= i < |waits| ensures Depth(LaneOf(AfterWaits(lanes, waits), waits[i].key)) == 0 {
      ShutdownWaitLeavesLanesIdle(lanes, waits, i);
    }
  }

  lemma LateEnqueueCanStay(lanes: Lanes, plan: seq<Wait>, i: nat, j: nat)
    requires Consistent(lanes) && LaneKeys(plan)
    requires i < j < |plan| && !NoneFor(Enqueues(plan[j].during), plan[i].key)
    ensures var waits := Drained(lanes, plan);
      SameEnqueues(waits, plan) && EachWaitSucceeded(lanes, waits) && !AllIdleAfter(lanes, waits)
  {
    DrainedIsSchedule(lanes, plan);
    LateLaneIsBusy(lanes, plan, i, j);
    assert Drained(lanes, plan)[i].key == plan[i].key;
  }

  /** An enqueue during a later wait can leave an earlier lane busy at the end. */
  lemma LateEnqueueBreaksShutdownWait(task: Item)
    ensures var waits := [Wait("a", []), Wait("b", [Event("a", Enqueue(task))])];
      EachWaitSucceeded(map[], waits) && Depth(LaneOf(AfterWaits(map[], waits), "a")) == 1
  {
    var e := Event("a", Enqueue(task));
    var waits := [Wait("a", []), Wait("b", [e])];
    PlainKeys();
    assert RunAll(map[], [e]) == NextAll(map[], e) by {
      assert [e][..0] == [];
    }
    assert waits[1..] == [Wait("b", [e])] && waits[1..][1..] == [];
    assert AfterWaits(map[], waits) == AfterWaits(RunAll(map[], []), [Wait("b", [e])]);
    assert AfterWaits(map[], [Wait("b", [e])]) == AfterWaits(RunAll(map[], [e]), []);
  }

  lemma PlainKeys()
    ensures NormalizeLaneKey("a") == "a" && NormalizeLaneKey("b") == "b"
  {
    assert Lower("a") == "a" && Lower("b") == "b";
  }

  class OnchainTxQueues {
    var lanes: map<string, OnchainTxSerialLane>

    ghost predicate Valid()
      reads this, lanes.Values
    {
      forall k :: k in lanes ==> lanes[k].Valid() && lanes[k].laneKey == k
    }

    ghost function View(): Lanes
      reads this, lanes.Values
    {
      map k | k in lanes :: lanes[k].State()
    }

    constructor ()
      ensures Valid() && View() == map[]
    {
      lanes := map[];
    }

    /** The lane under an already normalised key. */
    method GetOrCreateLane(key: string) returns (lane: OnchainTxSerialLane)
      requires Valid()
      modifies this
      ensures Valid() && lane.Valid() && lanes == old(lanes)[key := lane]
      ensures if key in old(lanes) then lane == old(lanes)[key] else fresh(lane) && lane.State() == IDLE
    {
      if key in lanes { return lanes[key]; }
      lane := new OnchainTxSerialLane(key);
      assert forall k :: k in lanes ==> lanes[k] in lanes.Values;
      lanes := lanes[key := lane];
    }

    method EnqueueUnder(key: string, task: Item)
      requires Valid()
      modifies this, lanes.Values
      ensures Valid() && lanes.Keys == old(lanes.Keys) + {key}
      ensures lanes[key].State() == Next(if key in old(lanes) then old(lanes[key].State()) else IDLE, Enqueue(task))
      ensures forall k :: k in old(lanes) && k != key ==> lanes[k].State() == old(lanes[k].State())
    {
      assert forall k :: k in lanes ==> lanes[k] in lanes.Values;
      var lane := GetOrCreateLane(key);
      lane.EnqueueTask(task);
      assert forall k :: k in lanes && k != key ==> lanes[k] == old(lanes)[k] && lanes[k] != lane;
    }

    method EnqueueOnchainTxWork(laneKey: string, task: Item)
      requires Valid()
      modifies this, lanes.Values
      ensures Valid() && View() == NextAll(old(View()), Event(laneKey, Enqueue(task)))
    {
      EnqueueUnder(NormalizeLaneKey(laneKey), task);
    }
  }
}
