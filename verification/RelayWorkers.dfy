/**
 * Relay queues that share the CoNET settle wallets. Three disciplines occur:
 *  - Parallel: chatIndexPointer, treasuryStableSwapRelay and genesisNodeReferralRedeem
 *    start as many workers as there are wallets;
 *  - Flagged: the two gbDepinAirdrop presses run one worker, guarded by a flag they
 *    set and clear themselves;
 *  - Gateway: the card reward pool runs one worker, guarded by a flag its kick sets
 *    and the `finally` of the press clears.
 * Code between two awaits runs alone, so a whole stretch is one step here.
 */
module RelayWorkers {
  import opened Common

  type Wallet = nat

  datatype Discipline = Parallel | Flagged | Gateway

  /** `id` is the job's position in the arrival order of its queue. `wantsReply` says it carries a
      response object, `answeredAlready` that its headers were sent before it was queued. */
  datatype Job = Job(id: nat, wantsReply: bool, answeredAlready: bool)

  datatype Worker = Worker(job: Job, wallet: Wallet)

  datatype Reply = Reply(id: nat, ok: bool)

  datatype Completion = Completion(job: Job, ok: bool)

  /** One queue: its pool array, its running flag, the suspended workers and armed timers, and
      what an observer has seen so far: arrivals, starts, completions, replies, and the ids
      whose headers are already sent. */
  datatype Lane = Lane(
    discipline: Discipline,
    queue: seq<Job>,
    running: bool,
    workers: seq<Worker>,
    timers: nat,
    arrived: seq<Job>,
    started: seq<Job>,
    finished: seq<Completion>,
    replies: seq<Reply>,
    headersSent: set<nat>)

  /** `outside` are CoNET wallets taken by code that is not one of these relays. */
  datatype Hub = Hub(lanes: seq<Lane>, idle: seq<Wallet>, outside: seq<Wallet>)

  /** A press that is already under way turns further kicks into no-ops. */
  predicate Busy(l: Lane) {
    l.discipline != Parallel && l.running
  }

  // ---- What one stretch of synchronous code does to the hub ----

  function WithLane(h: Hub, q: nat, l: Lane): Hub
    requires q < |h.lanes|
  {
    h.(lanes := h.lanes[q := l])
  }

  function Armed(h: Hub, q: nat): Hub
    requires q < |h.lanes|
  {
    WithLane(h, q, h.lanes[q].(timers := h.lanes[q].timers + 1))
  }

  /** The head job and the head wallet become a worker, which then suspends on the chain. */
  function Started(h: Hub, q: nat): Hub
    requires q < |h.lanes| && h.lanes[q].queue != [] && h.idle != []
  {
    var l := h.lanes[q];
    var job := l.queue[0];
    WithLane(h, q, l.(
      queue := l.queue[1..],
      running := l.running || l.discipline != Parallel,
      workers := l.workers + [Worker(job, h.idle[0])],
      started := l.started + [job])).(idle := h.idle[1..])
  }

  /** A kick: nothing while the flag is up or the queue is empty, a timer when no wallet is idle. */
  function Kicked(h: Hub, q: nat): Hub
    requires q < |h.lanes|
  {
    var l := h.lanes[q];
    if Busy(l) || l.queue == [] then h
    else if h.idle == [] then Armed(h, q)
    else Started(h, q)
  }

  /** What a finishing worker does about the rest of its queue. */
  function Rescheduled(h: Hub, q: nat): Hub
    requires q < |h.lanes|
  {
    var l := h.lanes[q];
    if l.queue == [] then h
    else if l.discipline == Gateway || h.idle == [] then Armed(h, q)
    else Kicked(h, q)
  }

  function Enqueued(h: Hub, q: nat, wantsReply: bool, answeredAlready: bool): Hub
    requires q < |h.lanes|
  {
    var l := h.lanes[q];
    var job := Job(|l.arrived|, wantsReply, answeredAlready);
    Kicked(WithLane(h, q, l.(
      queue := l.queue + [job],
      arrived := l.arrived + [job],
      headersSent := if answeredAlready then l.headersSent + {job.id} else l.headersSent)), q)
  }

  function TimerFired(h: Hub, q: nat): Hub
    requires q < |h.lanes| && h.lanes[q].timers > 0
  {
    Kicked(WithLane(h, q, h.lanes[q].(timers := h.lanes[q].timers - 1)), q)
  }

  /** The reply, unless the job has no response object or its headers are out. */
  function Replied(l: Lane, job: Job, ok: bool): Lane {
    if job.wantsReply && job.id !in l.headersSent
    then l.(replies := l.replies + [Reply(job.id, ok)], headersSent := l.headersSent + {job.id})
    else l
  }

  /** The worker is done, its wallet is back at the front, its flag is down. */
  function Released(h: Hub, q: nat, i: nat, ok: bool): Hub
    requires q < |h.lanes| && i < |h.lanes[q].workers|
  {
    var l := h.lanes[q];
    var w := l.workers[i];
    WithLane(h, q, Replied(l, w.job, ok).(
      workers := RemoveAt(l.workers, i),
      finished := l.finished + [Completion(w.job, ok)],
      running := l.running && l.discipline == Parallel)).(idle := [w.wallet] + h.idle)
  }

  // ---- Runs ----

  datatype Step =
    | Enqueue(q: nat, wantsReply: bool, answeredAlready: bool)
    | Timer(q: nat)
    | Done(q: nat, worker: nat, ok: bool)
    | OutsideTakes(wallet: nat)
    | OutsideReturns(hold: nat)

  ghost predicate Enabled(h: Hub, step: Step) {
    match step
    case Enqueue(q, _, _) => q < |h.lanes|
    case Timer(q) => q < |h.lanes| && h.lanes[q].timers > 0
    case Done(q, i, _) => q < |h.lanes| && i < |h.lanes[q].workers|
    case OutsideTakes(i) => i < |h.idle|
    case OutsideReturns(i) => i < |h.outside|
  }

  /** A step that is not enabled stands for nothing happening. */
  ghost function Next(h: Hub, step: Step): Hub {
    if !Enabled(h, step) then h
    else
      match step
      case Enqueue(q, wantsReply, answeredAlready) => Enqueued(h, q, wantsReply, answeredAlready)
      case Timer(q) => TimerFired(h, q)
      case Done(q, i, ok) => Rescheduled(Released(h, q, i, ok), q)
      case OutsideTakes(i) => h.(idle := RemoveAt(h.idle, i), outside := h.outside + [h.idle[i]])
      case OutsideReturns(i) => h.(idle := [h.outside[i]] + h.idle, outside := RemoveAt(h.outside, i))
  }

  ghost function Run(h: Hub, steps: seq<Step>): Hub
    decreases |steps|
  {
    if steps == [] then h else Run(Next(h, steps[0]), steps[1..])
  }

  function EmptyLane(d: Discipline): Lane {
    Lane(d, [], false, [], 0, [], [], [], [], {})
  }

  function Initial(disciplines: seq<Discipline>, roster: seq<Wallet>): Hub {
    Hub(seq(|disciplines|, i requires 0 <= i < |disciplines| => EmptyLane(disciplines[i])), roster, [])
  }

  // ---- Invariant of one lane ----

  function JobsOf(ws: seq<Worker>): seq<Job> {
    seq(|ws|, i requires 0 <= i < |ws| => ws[i].job)
  }

  function WalletsOf(ws: seq<Worker>): seq<Wallet> {
    seq(|ws|, i requires 0 <= i < |ws| => ws[i].wallet)
  }

  function JobsDone(cs: seq<Completion>): seq<Job> {
    seq(|cs|, i requires 0 <= i < |cs| => cs[i].job)
  }

  /** The replies that a history of completions calls for. */
  function ExpectedReplies(cs: seq<Completion>): seq<Reply> {
    if cs == [] then []
    else
      var c := cs[|cs| - 1];
      ExpectedReplies(cs[..|cs| - 1])
      + if c.job.wantsReply && !c.job.answeredAlready then [Reply(c.job.id, c.ok)] else []
  }

  /** Arrival order is started-then-queued, and each started job is at work or finished. */
  ghost predicate Accounted(l: Lane) {
    && l.arrived == l.started + l.queue
    && |l.started| == |l.workers| + |l.finished|
    && (forall k :: 0 <= k < |l.arrived| ==> l.arrived[k].id == k)
    && (forall j :: Count(l.started, j) == Count(JobsOf(l.workers), j) + Count(JobsDone(l.finished), j))
  }

  ghost predicate OneAtATime(l: Lane) {
    l.discipline != Parallel ==> |l.workers| == if l.running then 1 else 0
  }

  ghost predicate Answered(l: Lane) {
    && l.replies == ExpectedReplies(l.finished)
    && (forall id :: id in l.headersSent ==> id < |l.arrived|)
    && (forall j :: j in l.queue ==> (j.id in l.headersSent <==> j.answeredAlready))
    && (forall w :: w in l.workers ==> (w.job.id in l.headersSent <==> w.job.answeredAlready))
  }

  /** Work waiting in the queue always has someone who will come back for it. */
  ghost predicate Awake(l: Lane) {
    l.queue != [] ==> l.workers != [] || l.timers > 0
  }

  ghost predicate Core(l: Lane) {
    Accounted(l) && OneAtATime(l) && Answered(l)
  }

  lemma WorkerLists(ws: seq<Worker>, w: Worker, i: nat)
    ensures JobsOf(ws + [w]) == JobsOf(ws) + [w.job]
    ensures WalletsOf(ws + [w]) == WalletsOf(ws) + [w.wallet]
    ensures i < |ws| ==> JobsOf(RemoveAt(ws, i)) == RemoveAt(JobsOf(ws), i)
    ensures i < |ws| ==> WalletsOf(RemoveAt(ws, i)) == RemoveAt(WalletsOf(ws), i)
  {
  }

  /** A started job is an arrival, found at the position its id names, and no other started job has that id. */
  lemma {:induction false} StartedJobsDistinct(l: Lane, j: Job)
    requires Accounted(l)
    ensures Count(l.started, j) <= 1
    ensures j in l.started ==> j.id < |l.started| && l.arrived[j.id] == j
  {
    assert forall k :: 0 <= k < |l.started| ==> l.started[k] == l.arrived[k];
    NoDupCount(l.started);
  }

  /** Two workers of one lane never have the same job id, nor one that is finished or queued. */
  lemma WorkerIdsDistinct(l: Lane, i: nat)
    requires Accounted(l) && i < |l.workers|
    ensures forall k :: 0 <= k < |l.workers| && k != i ==> l.workers[k].job.id != l.workers[i].job.id
    ensures forall j :: j in l.queue ==> j.id != l.workers[i].job.id
    ensures l.workers[i].job.id < |l.arrived|
  {
    var jobs := JobsOf(l.workers);
    var j := jobs[i];
    CountPositive(jobs, j);
    CountPositive(l.started, j);
    StartedJobsDistinct(l, j);
    forall k | 0 <= k < |l.workers| && k != i ensures l.workers[k].job.id != j.id {
      CountPositive(jobs, jobs[k]);
      CountPositive(l.started, jobs[k]);
      StartedJobsDistinct(l, jobs[k]);
      if jobs[k] == j {
        CountRemoveAt(jobs, i, j);
        var rest := RemoveAt(jobs, i);
        assert j == rest[if k < i then k else k - 1];
        CountPositive(rest, j);
      }
    }
    forall c | c in l.queue ensures c.id != j.id {
      var m :| 0 <= m < |l.queue| && l.queue[m] == c;
      assert l.arrived[|l.started| + m] == c;
    }
  }

  // ---- Each stretch of code keeps the lane's books ----

  lemma EnqueueKeepsCore(l: Lane, job: Job)
    requires Core(l) && job.id == |l.arrived|
    ensures Core(l.(queue := l.queue + [job], arrived := l.arrived + [job],
                    headersSent := if job.answeredAlready then l.headersSent + {job.id} else l.headersSent))
  {
    assert l.arrived + [job] == l.started + (l.queue + [job]);
    forall w | w in l.workers ensures w.job.id < |l.arrived| {
      var i :| 0 <= i < |l.workers| && l.workers[i] == w;
      WorkerIdsDistinct(l, i);
    }
    forall j | j in l.queue ensures j.id < |l.arrived| {
      var m :| 0 <= m < |l.queue| && l.queue[m] == j;
      assert l.arrived[|l.started| + m] == j;
    }
  }

  lemma StartKeepsCore(h: Hub, q: nat)
    requires q < |h.lanes| && h.lanes[q].queue != [] && h.idle != [] && !Busy(h.lanes[q])
    requires Core(h.lanes[q])
    ensures Core(Started(h, q).lanes[q]) && Awake(Started(h, q).lanes[q])
  {
    var l, n := h.lanes[q], Started(h, q).lanes[q];
    var w := Worker(l.queue[0], h.idle[0]);
    WorkerLists(l.workers, w, 0);
    assert l.started + l.queue == (l.started + [w.job]) + l.queue[1..];
    forall j ensures Count(n.started, j) == Count(JobsOf(n.workers), j) + Count(JobsDone(n.finished), j) {
      CountAppend(l.started, w.job, j);
      CountAppend(JobsOf(l.workers), w.job, j);
    }
  }

  lemma ReleaseKeepsCore(h: Hub, q: nat, i: nat, ok: bool)
    requires q < |h.lanes| && i < |h.lanes[q].workers| && Core(h.lanes[q])
    ensures Core(Released(h, q, i, ok).lanes[q])
  {
    var l, n := h.lanes[q], Released(h, q, i, ok).lanes[q];
    var w := l.workers[i];
    WorkerLists(l.workers, w, i);
    WorkerIdsDistinct(l, i);
    var c := Completion(w.job, ok);
    assert JobsDone(l.finished + [c]) == JobsDone(l.finished) + [w.job];
    forall j ensures Count(n.started, j) == Count(JobsOf(n.workers), j) + Count(JobsDone(n.finished), j) {
      CountRemoveAt(JobsOf(l.workers), i, j);
      CountAppend(JobsDone(l.finished), w.job, j);
    }
    assert (l.finished + [c])[..|l.finished|] == l.finished;
    forall v | v in n.workers ensures v.job.id in n.headersSent <==> v.job.answeredAlready {
      var k :| 0 <= k < |n.workers| && n.workers[k] == v;
      assert v == l.workers[if k < i then k else k + 1];
    }
  }

  // ---- The whole hub ----

  function Sum(lanes: seq<Lane>, f: Lane -> nat): nat {
    if lanes == [] then 0 else f(lanes[0]) + Sum(lanes[1..], f)
  }

  lemma {:induction false} SumUpdate(lanes: seq<Lane>, q: nat, l: Lane, f: Lane -> nat)
    requires q < |lanes|
    ensures Sum(lanes[q := l], f) + f(lanes[q]) == Sum(lanes, f) + f(l)
  {
    if q == 0 {
      assert lanes[0 := l][1..] == lanes[1..];
    } else {
      SumUpdate(lanes[1..], q - 1, l, f);
      assert lanes[q := l][1..] == lanes[1..][q - 1 := l];
    }
  }

  lemma {:induction false} SumPositive(lanes: seq<Lane>, f: Lane -> nat)
    ensures Sum(lanes, f) > 0 <==> exists q :: 0 <= q < |lanes| && f(lanes[q]) > 0
  {
    if lanes != [] {
      SumPositive(lanes[1..], f);
      assert forall q :: 0 < q < |lanes| ==> lanes[q] == lanes[1..][q - 1];
      assert forall q :: 0 <= q < |lanes| - 1 ==> lanes[q + 1] == lanes[1..][q];
    }
  }

  /** How many slots of wallet `w` a lane's workers hold. */
  function HoldingOf(w: Wallet): Lane -> nat {
    (l: Lane) => Count(WalletsOf(l.workers), w)
  }

  function WorkerCount(): Lane -> nat {
    (l: Lane) => |l.workers|
  }

  function QueueLength(): Lane -> nat {
    (l: Lane) => |l.queue|
  }

  function Workers(h: Hub): nat { Sum(h.lanes, WorkerCount()) }

  function Queued(h: Hub): nat { Sum(h.lanes, QueueLength()) }

  function Unfinished(h: Hub): nat { Queued(h) + Workers(h) }

  /** Idle, held and outside wallets are the roster, wallet by wallet and in number. */
  ghost predicate Conserved(h: Hub, roster: seq<Wallet>) {
    && (forall w :: Count(h.idle, w) + Sum(h.lanes, HoldingOf(w)) + Count(h.outside, w) == Count(roster, w))
    && |h.idle| + Workers(h) + |h.outside| == |roster|
  }

  ghost predicate Books(h: Hub, roster: seq<Wallet>) {
    && Conserved(h, roster)
    && (forall q :: 0 <= q < |h.lanes| ==> Core(h.lanes[q]))
  }

  ghost predicate HubInv(h: Hub, roster: seq<Wallet>) {
    && Books(h, roster)
    && (forall q :: 0 <= q < |h.lanes| ==> Awake(h.lanes[q]))
  }

  /** Changing a lane without touching its workers moves no wallet. */
  lemma SameWorkersConserve(h: Hub, q: nat, l: Lane, roster: seq<Wallet>)
    requires q < |h.lanes| && Conserved(h, roster) && l.workers == h.lanes[q].workers
    ensures Conserved(WithLane(h, q, l), roster)
  {
    forall w ensures Sum(h.lanes[q := l], HoldingOf(w)) == Sum(h.lanes, HoldingOf(w)) {
      SumUpdate(h.lanes, q, l, HoldingOf(w));
    }
    SumUpdate(h.lanes, q, l, WorkerCount());
  }

  lemma StartConserves(h: Hub, q: nat, roster: seq<Wallet>)
    requires q < |h.lanes| && h.lanes[q].queue != [] && h.idle != [] && Conserved(h, roster)
    ensures Conserved(Started(h, q), roster)
  {
    var l, n := h.lanes[q], Started(h, q).lanes[q];
    var v := Worker(l.queue[0], h.idle[0]);
    WorkerLists(l.workers, v, 0);
    forall w ensures Count(h.idle[1..], w) + Sum(h.lanes[q := n], HoldingOf(w)) + Count(h.outside, w)
      == Count(roster, w) {
      SumUpdate(h.lanes, q, n, HoldingOf(w));
      CountAppend(WalletsOf(l.workers), v.wallet, w);
    }
    SumUpdate(h.lanes, q, n, WorkerCount());
  }

  lemma ReleaseConserves(h: Hub, q: nat, i: nat, ok: bool, roster: seq<Wallet>)
    requires q < |h.lanes| && i < |h.lanes[q].workers| && Conserved(h, roster)
    ensures Conserved(Released(h, q, i, ok), roster)
  {
    var l, r := h.lanes[q], Released(h, q, i, ok);
    var n, v := r.lanes[q], l.workers[i];
    WorkerLists(l.workers, v, i);
    assert r.idle[1..] == h.idle;
    forall w ensures Count(r.idle, w) + Sum(r.lanes, HoldingOf(w)) + Count(r.outside, w) == Count(roster, w) {
      SumUpdate(h.lanes, q, n, HoldingOf(w));
      CountRemoveAt(WalletsOf(l.workers), i, w);
    }
    SumUpdate(h.lanes, q, n, WorkerCount());
  }

  lemma KickConserves(h: Hub, q: nat, roster: seq<Wallet>)
    requires q < |h.lanes| && Conserved(h, roster)
    ensures Conserved(Kicked(h, q), roster) && Conserved(Armed(h, q), roster)
  {
    var l := h.lanes[q];
    SameWorkersConserve(h, q, l.(timers := l.timers + 1), roster);
    if l.queue != [] && h.idle != [] { StartConserves(h, q, roster); }
  }

  /** Whatever state the lane was left in, a kick leaves it awake, and so does rescheduling. */
  lemma KickWakes(h: Hub, q: nat)
    requires q < |h.lanes| && Core(h.lanes[q])
    ensures Core(Kicked(h, q).lanes[q]) && Awake(Kicked(h, q).lanes[q])
    ensures Core(Rescheduled(h, q).lanes[q]) && Awake(Rescheduled(h, q).lanes[q])
  {
    var l := h.lanes[q];
    if !Busy(l) && l.queue != [] && h.idle != [] { StartKeepsCore(h, q); }
  }

  lemma KickKeeps(h: Hub, q: nat, roster: seq<Wallet>)
    requires q < |h.lanes| && Books(h, roster)
    requires forall p :: 0 <= p < |h.lanes| && p != q ==> Awake(h.lanes[p])
    ensures HubInv(Kicked(h, q), roster) && HubInv(Rescheduled(h, q), roster)
  {
    KickConserves(h, q, roster);
    KickWakes(h, q);
    OnlyLane(h, Kicked(h, q), q, roster);
    OnlyLane(h, Rescheduled(h, q), q, roster);
  }

  lemma OnlyLane(h: Hub, n: Hub, q: nat, roster: seq<Wallet>)
    requires q < |h.lanes| == |n.lanes| && Books(h, roster) && Conserved(n, roster)
    requires forall p :: 0 <= p < |h.lanes| && p != q ==> Awake(h.lanes[p]) && n.lanes[p] == h.lanes[p]
    requires Core(n.lanes[q]) && Awake(n.lanes[q])
    ensures HubInv(n, roster)
  {
  }

  lemma OutsideKeeps(h: Hub, step: Step, roster: seq<Wallet>)
    requires HubInv(h, roster) && Enabled(h, step) && (step.OutsideTakes? || step.OutsideReturns?)
    ensures HubInv(Next(h, step), roster)
  {
    var n := Next(h, step);
    if step.OutsideReturns? { assert n.idle[1..] == h.idle; }
    forall w ensures Count(n.idle, w) + Sum(n.lanes, HoldingOf(w)) + Count(n.outside, w) == Count(roster, w) {
      if step.OutsideTakes? {
        CountRemoveAt(h.idle, step.wallet, w);
        CountAppend(h.outside, h.idle[step.wallet], w);
      } else {
        CountRemoveAt(h.outside, step.hold, w);
      }
    }
  }

  lemma EnqueueKeeps(h: Hub, q: nat, wantsReply: bool, answeredAlready: bool, roster: seq<Wallet>)
    requires HubInv(h, roster) && q < |h.lanes|
    ensures HubInv(Enqueued(h, q, wantsReply, answeredAlready), roster)
  {
    var l := h.lanes[q];
    var job := Job(|l.arrived|, wantsReply, answeredAlready);
    var n := l.(queue := l.queue + [job], arrived := l.arrived + [job],
                headersSent := if answeredAlready then l.headersSent + {job.id} else l.headersSent);
    EnqueueKeepsCore(l, job);
    SameWorkersConserve(h, q, n, roster);
    KickKeeps(WithLane(h, q, n), q, roster);
  }

  lemma TimerKeeps(h: Hub, q: nat, roster: seq<Wallet>)
    requires HubInv(h, roster) && q < |h.lanes| && h.lanes[q].timers > 0
    ensures HubInv(TimerFired(h, q), roster)
  {
    var n := h.lanes[q].(timers := h.lanes[q].timers - 1);
    SameWorkersConserve(h, q, n, roster);
    TimerCore(h.lanes[q]);
    KickKeeps(WithLane(h, q, n), q, roster);
  }

  lemma TimerCore(l: Lane)
    requires Core(l) && l.timers > 0
    ensures Core(l.(timers := l.timers - 1))
  {
  }

  lemma DoneKeeps(h: Hub, q: nat, i: nat, ok: bool, roster: seq<Wallet>)
    requires HubInv(h, roster) && q < |h.lanes| && i < |h.lanes[q].workers|
    ensures HubInv(Rescheduled(Released(h, q, i, ok), q), roster)
  {
    ReleaseKeepsCore(h, q, i, ok);
    ReleaseConserves(h, q, i, ok, roster);
    KickKeeps(Released(h, q, i, ok), q, roster);
  }

  lemma NextKeeps(h: Hub, step: Step, roster: seq<Wallet>)
    requires HubInv(h, roster)
    ensures HubInv(Next(h, step), roster)
  {
    if Enabled(h, step) {
      match step
      case Enqueue(q, wantsReply, answeredAlready) => EnqueueKeeps(h, q, wantsReply, answeredAlready, roster);
      case Timer(q) => TimerKeeps(h, q, roster);
      case Done(q, i, ok) => DoneKeeps(h, q, i, ok, roster);
      case OutsideTakes(i) => OutsideKeeps(h, step, roster);
      case OutsideReturns(i) => OutsideKeeps(h, step, roster);
    }
  }

  lemma {:induction false} RunKeeps(h: Hub, steps: seq<Step>, roster: seq<Wallet>)
    requires HubInv(h, roster)
    ensures HubInv(Run(h, steps), roster)
    decreases |steps|
  {
    if steps != [] {
      NextKeeps(h, steps[0], roster);
      RunKeeps(Next(h, steps[0]), steps[1..], roster);
    }
  }

  lemma InitialInv(disciplines: seq<Discipline>, roster: seq<Wallet>)
    ensures HubInv(Initial(disciplines, roster), roster)
  {
    var h := Initial(disciplines, roster);
    assert forall q :: 0 <= q < |h.lanes| ==> h.lanes[q].workers == [];
    forall w ensures Sum(h.lanes, HoldingOf(w)) == 0 {
      SumPositive(h.lanes, HoldingOf(w));
    }
    SumPositive(h.lanes, WorkerCount());
    assert Conserved(h, roster);
    forall q | 0 <= q < |h.lanes| ensures Core(h.lanes[q]) && Awake(h.lanes[q]) {
      EmptyLaneCore(disciplines[q]);
    }
  }

  lemma EmptyLaneCore(d: Discipline)
    ensures Core(EmptyLane(d)) && Awake(EmptyLane(d))
  {
  }

  /** Every reachable state, for any number of queues of any discipline over any roster. */
  lemma ReachableInv(disciplines: seq<Discipline>, roster: seq<Wallet>, steps: seq<Step>)
    ensures HubInv(Run(Initial(disciplines, roster), steps), roster)
  {
    InitialInv(disciplines, roster);
    RunKeeps(Initial(disciplines, roster), steps, roster);
  }

  // ---- Safety ----

  /** Each arrived job is waiting, at work or finished, in exactly one of these and exactly once,
      and jobs start in the order they arrived. */
  lemma JobInExactlyOnePlace(disciplines: seq<Discipline>, roster: seq<Wallet>, steps: seq<Step>, q: nat, k: nat)
    requires q < |disciplines|
    ensures var h := Run(Initial(disciplines, roster), steps);
      && q < |h.lanes|
      && h.lanes[q].started <= h.lanes[q].arrived
      && (k < |h.lanes[q].arrived| ==>
            var l, j := h.lanes[q], h.lanes[q].arrived[k];
            Count(l.queue, j) + Count(JobsOf(l.workers), j) + Count(JobsDone(l.finished), j) == 1)
  {
    ReachableInv(disciplines, roster, steps);
    LaneCountConstant(Initial(disciplines, roster), steps);
    var l := Run(Initial(disciplines, roster), steps).lanes[q];
    if k < |l.arrived| {
      var j := l.arrived[k];
      NoDupCount(l.arrived);
      CountPositive(l.arrived, j);
      CountConcat(l.started, l.queue, j);
    }
  }

  lemma {:induction false} LaneCountConstant(h: Hub, steps: seq<Step>)
    ensures |Run(h, steps).lanes| == |h.lanes|
    decreases |steps|
  {
    if steps != [] { LaneCountConstant(Next(h, steps[0]), steps[1..]); }
  }

  /** How many replies went out for job `id`. */
  function ReplyCount(rs: seq<Reply>, id: nat): nat {
    if rs == [] then 0
    else ReplyCount(rs[..|rs| - 1], id) + (if rs[|rs| - 1].id == id then 1 else 0)
  }

  lemma {:induction false} RepliesFollowCompletions(cs: seq<Completion>, j: Job)
    requires forall c :: c in cs && c.job.id == j.id ==> c.job == j
    ensures ReplyCount(ExpectedReplies(cs), j.id)
         == if j.wantsReply && !j.answeredAlready then Count(JobsDone(cs), j) else 0
  {
    if cs != [] {
      var front, c := cs[..|cs| - 1], cs[|cs| - 1];
      RepliesFollowCompletions(front, j);
      assert JobsDone(cs) == JobsDone(front) + [c.job];
      CountAppend(JobsDone(front), c.job, j);
      var rs := ExpectedReplies(front);
      assert (rs + [Reply(c.job.id, c.ok)])[..|rs|] == rs;
      assert rs + [] == rs;
    }
  }

  // -- What the list of steps says about arrivals and endings --

  /** The jobs that the enqueue steps bring to queue `q` of `n` queues. */
  function Arrivals(n: nat, steps: seq<Step>, q: nat): seq<Job> {
    if steps == [] then []
    else
      var front, last := Arrivals(n, steps[..|steps| - 1], q), steps[|steps| - 1];
      front
      + if last.Enqueue? && last.q == q && q < n then [Job(|front|, last.wantsReply, last.answeredAlready)] else []
  }

  /** The m-th step lets the worker end that holds job `k` of queue `q` at that moment. */
  ghost predicate Ends(start: Hub, steps: seq<Step>, m: nat, q: nat, k: nat) {
    && m < |steps| && steps[m].Done? && steps[m].q == q
    && Enabled(Run(start, steps[..m]), steps[m])
    && Run(start, steps[..m]).lanes[q].workers[steps[m].worker].job.id == k
  }

  lemma {:induction false} RunSnoc(h: Hub, steps: seq<Step>)
    requires steps != []
    ensures Run(h, steps) == Next(Run(h, steps[..|steps| - 1]), steps[|steps| - 1])
    decreases |steps|
  {
    if |steps| > 1 {
      RunSnoc(Next(h, steps[0]), steps[1..]);
      assert steps[1..][..|steps| - 2] == steps[..|steps| - 1][1..];
    } else {
      assert steps[1..] == [] && steps[..0] == [];
    }
  }

  lemma StepLogs(h: Hub, step: Step, q: nat)
    requires q < |h.lanes|
    ensures q < |Next(h, step).lanes|
    ensures Next(h, step).lanes[q].arrived == h.lanes[q].arrived
      + if step.Enqueue? && step.q == q
        then [Job(|h.lanes[q].arrived|, step.wantsReply, step.answeredAlready)] else []
    ensures Next(h, step).lanes[q].finished == h.lanes[q].finished
      + if step.Done? && step.q == q && Enabled(h, step)
        then [Completion(h.lanes[q].workers[step.worker].job, step.ok)] else []
  {
    assert h.lanes[q].finished + [] == h.lanes[q].finished && h.lanes[q].arrived + [] == h.lanes[q].arrived;
  }

  lemma {:induction false} ArrivedIsArrivals(disciplines: seq<Discipline>, roster: seq<Wallet>, steps: seq<Step>,
                                             q: nat)
    requires q < |disciplines|
    ensures q < |Run(Initial(disciplines, roster), steps).lanes|
    ensures Run(Initial(disciplines, roster), steps).lanes[q].arrived == Arrivals(|disciplines|, steps, q)
    decreases |steps|
  {
    if steps != [] {
      RunSnoc(Initial(disciplines, roster), steps);
      ArrivedIsArrivals(disciplines, roster, steps[..|steps| - 1], q);
      StepLogs(Run(Initial(disciplines, roster), steps[..|steps| - 1]), steps[|steps| - 1], q);
    }
  }

  /** Some job `k` is recorded as finished with outcome `ok`. */
  ghost predicate FinishedWith(cs: seq<Completion>, k: nat, ok: bool) {
    exists c :: c in cs && c.job.id == k && c.ok == ok
  }

  ghost predicate EndsWith(start: Hub, steps: seq<Step>, q: nat, k: nat, ok: bool) {
    exists m: nat :: Ends(start, steps, m, q, k) && steps[m].ok == ok
  }

  /** The list of steps decides what has finished, and how. */
  lemma {:induction false} FinishedFromSteps(start: Hub, steps: seq<Step>, q: nat, k: nat, ok: bool)
    requires q < |start.lanes| && start.lanes[q].finished == []
    ensures q < |Run(start, steps).lanes|
    ensures FinishedWith(Run(start, steps).lanes[q].finished, k, ok) <==> EndsWith(start, steps, q, k, ok)
    decreases |steps|
  {
    if steps == [] {
      assert !EndsWith(start, [], q, k, ok);
    } else {
      var n := |steps| - 1;
      var front, h := steps[..n], Run(start, steps[..n]);
      RunSnoc(start, steps);
      FinishedFromSteps(start, front, q, k, ok);
      StepLogs(h, steps[n], q);
      EndsInFront(start, steps, q, k, ok);
    }
  }

  lemma EndsInFront(start: Hub, steps: seq<Step>, q: nat, k: nat, ok: bool)
    requires steps != []
    ensures var n := |steps| - 1;
      EndsWith(start, steps, q, k, ok)
      <==> EndsWith(start, steps[..n], q, k, ok) || (Ends(start, steps, n, q, k) && steps[n].ok == ok)
  {
    var n := |steps| - 1;
    var front := steps[..n];
    forall m | 0 <= m < n ensures Ends(start, steps, m, q, k) <==> Ends(start, front, m, q, k) {
      assert front[..m] == steps[..m];
    }
    if EndsWith(start, front, q, k, ok) {
      var m: nat :| Ends(start, front, m, q, k) && front[m].ok == ok;
      assert Ends(start, steps, m, q, k) && steps[m].ok == ok;
    }
    if EndsWith(start, steps, q, k, ok) {
      var m: nat :| Ends(start, steps, m, q, k) && steps[m].ok == ok;
      assert m < n ==> Ends(start, front, m, q, k) && front[m].ok == ok;
    }
  }

  /** A finished job is the arrival that its id names. */
  lemma FinishedJobIs(l: Lane, c: Completion)
    requires Accounted(l) && c in l.finished
    ensures c.job.id < |l.arrived| && c.job == l.arrived[c.job.id] && c.job in JobsDone(l.finished)
  {
    var done := JobsDone(l.finished);
    var i :| 0 <= i < |l.finished| && l.finished[i] == c;
    assert done[i] == c.job;
    CountPositive(done, c.job);
    CountPositive(l.started, c.job);
    StartedJobsDistinct(l, c.job);
  }

  /** While a worker holds a job, no job with its id is finished. */
  lemma WorkingIsNotFinished(l: Lane, i: nat, c: Completion)
    requires Accounted(l) && i < |l.workers| && c in l.finished
    ensures c.job.id != l.workers[i].job.id
  {
    var j := l.workers[i].job;
    FinishedJobIs(l, c);
    assert JobsOf(l.workers)[i] == j;
    CountPositive(JobsOf(l.workers), j);
    CountPositive(JobsDone(l.finished), c.job);
    CountPositive(l.started, j);
    StartedJobsDistinct(l, j);
  }

  /** No job ends twice. */
  lemma EndsOnce(disciplines: seq<Discipline>, roster: seq<Wallet>, steps: seq<Step>, q: nat, k: nat, m: nat, n: nat)
    requires q < |disciplines|
    requires Ends(Initial(disciplines, roster), steps, m, q, k) && Ends(Initial(disciplines, roster), steps, n, q, k)
    ensures m == n
  {
    if m < n { NotEndedTwice(disciplines, roster, steps, q, k, m, n); }
    if n < m { NotEndedTwice(disciplines, roster, steps, q, k, n, m); }
  }

  lemma NotEndedTwice(disciplines: seq<Discipline>, roster: seq<Wallet>, steps: seq<Step>, q: nat, k: nat,
                      m: nat, n: nat)
    requires q < |disciplines| && m < n
    requires Ends(Initial(disciplines, roster), steps, m, q, k)
    ensures !Ends(Initial(disciplines, roster), steps, n, q, k)
  {
    if n < |steps| {
      var start, front := Initial(disciplines, roster), steps[..n];
      var h := Run(start, front);
      assert front[..m] == steps[..m];
      assert Ends(start, front, m, q, k);
      assert EndsWith(start, front, q, k, front[m].ok);
      FinishedFromSteps(start, front, q, k, front[m].ok);
      ReachableInv(disciplines, roster, front);
      var c :| c in h.lanes[q].finished && c.job.id == k;
      assert Core(h.lanes[q]);
      forall i | 0 <= i < |h.lanes[q].workers| ensures h.lanes[q].workers[i].job.id != k {
        WorkingIsNotFinished(h.lanes[q], i, c);
      }
    }
  }

  lemma {:induction false} ExpectedReply(cs: seq<Completion>, j: Job, ok: bool)
    requires forall c :: c in cs && c.job.id == j.id ==> c.job == j
    ensures Reply(j.id, ok) in ExpectedReplies(cs)
       <==> j.wantsReply && !j.answeredAlready && FinishedWith(cs, j.id, ok)
  {
    if cs != [] {
      var front, c := cs[..|cs| - 1], cs[|cs| - 1];
      assert cs == front + [c];
      ExpectedReply(front, j, ok);
    }
  }

  /** The reply to a job, from the steps alone: at most one step ends the job; if it expects an answer and had none
      when it came, it has exactly one reply once it has ended, which says how its worker ended; and otherwise none. */
  lemma ReplyExactlyOnce(disciplines: seq<Discipline>, roster: seq<Wallet>, steps: seq<Step>, q: nat, k: nat)
    requires q < |disciplines| && k < |Arrivals(|disciplines|, steps, q)|
    ensures q < |Run(Initial(disciplines, roster), steps).lanes|
    ensures forall m: nat, n: nat ::
      Ends(Initial(disciplines, roster), steps, m, q, k) && Ends(Initial(disciplines, roster), steps, n, q, k) ==>
        m == n
    ensures var replies := Run(Initial(disciplines, roster), steps).lanes[q].replies;
      var j := Arrivals(|disciplines|, steps, q)[k];
      && (forall ok :: Reply(k, ok) in replies
            <==> j.wantsReply && !j.answeredAlready && EndsWith(Initial(disciplines, roster), steps, q, k, ok))
      && ReplyCount(replies, k)
         == if j.wantsReply && !j.answeredAlready && exists m: nat :: Ends(Initial(disciplines, roster), steps, m, q, k)
            then 1 else 0
  {
    var start := Initial(disciplines, roster);
    ArrivedIsArrivals(disciplines, roster, steps, q);
    ReachableInv(disciplines, roster, steps);
    var l := Run(start, steps).lanes[q];
    var j := l.arrived[k];
    assert Core(l);
    forall c | c in l.finished && c.job.id == k ensures c.job == j { FinishedJobIs(l, c); }
    forall ok
      ensures Reply(k, ok) in l.replies <==> j.wantsReply && !j.answeredAlready && EndsWith(start, steps, q, k, ok) {
      ExpectedReply(l.finished, j, ok);
      FinishedFromSteps(start, steps, q, k, ok);
    }
    forall m: nat, n: nat | Ends(start, steps, m, q, k) && Ends(start, steps, n, q, k) ensures m == n {
      EndsOnce(disciplines, roster, steps, q, k, m, n);
    }
    DoneIffEnds(disciplines, roster, steps, q, k);
    JobInExactlyOnePlace(disciplines, roster, steps, q, k);
    RepliesFollowCompletions(l.finished, j);
    CountPositive(JobsDone(l.finished), j);
  }

  lemma DoneIffEnds(disciplines: seq<Discipline>, roster: seq<Wallet>, steps: seq<Step>, q: nat, k: nat)
    requires q < |disciplines| && q < |Run(Initial(disciplines, roster), steps).lanes|
    requires k < |Run(Initial(disciplines, roster), steps).lanes[q].arrived|
    ensures var l := Run(Initial(disciplines, roster), steps).lanes[q];
      l.arrived[k] in JobsDone(l.finished) <==> exists m: nat :: Ends(Initial(disciplines, roster), steps, m, q, k)
  {
    var start := Initial(disciplines, roster);
    var l := Run(start, steps).lanes[q];
    ReachableInv(disciplines, roster, steps);
    assert Core(l);
    FinishedFromSteps(start, steps, q, k, true);
    FinishedFromSteps(start, steps, q, k, false);
    if m: nat :| Ends(start, steps, m, q, k) {
      assert EndsWith(start, steps, q, k, steps[m].ok);
      var c :| c in l.finished && c.job.id == k;
      FinishedJobIs(l, c);
    }
    if l.arrived[k] in JobsDone(l.finished) {
      var i :| 0 <= i < |l.finished| && JobsDone(l.finished)[i] == l.arrived[k];
      assert l.finished[i] in l.finished && l.finished[i].job.id == k;
      assert FinishedWith(l.finished, k, l.finished[i].ok);
    }
  }

  /** A wallet that comes back goes to the queue it served, unless its next press only comes with a timer: the head job
      of the rest starts at once with that very wallet; only an empty rest leaves the wallet idle, first in line. */
  lemma HandOver(h: Hub, q: nat, i: nat, ok: bool)
    requires Enabled(h, Done(q, i, ok))
    ensures var (l, n, w) := (h.lanes[q], Next(h, Done(q, i, ok)), h.lanes[q].workers[i]);
      && q < |n.lanes|
      && (l.queue != [] && l.discipline != Gateway ==>
            && n.lanes[q].workers == RemoveAt(l.workers, i) + [Worker(l.queue[0], w.wallet)]
            && n.lanes[q].queue == l.queue[1..] && n.idle == h.idle)
      && (l.queue == [] || l.discipline == Gateway ==>
            && n.lanes[q].workers == RemoveAt(l.workers, i)
            && n.lanes[q].queue == l.queue && n.idle == [w.wallet] + h.idle)
      && n.lanes[q].timers == l.timers + (if l.queue != [] && l.discipline == Gateway then 1 else 0)
      && n.outside == h.outside && (forall p :: 0 <= p < |h.lanes| && p != q ==> n.lanes[p] == h.lanes[p])
  {
    var l, w := h.lanes[q], h.lanes[q].workers[i];
    var r := Released(h, q, i, ok);
    assert r.idle[0] == w.wallet && r.idle[1..] == h.idle;
  }

  /** A worker of a guarded queue is alone there, and with distinct keys no wallet serves two users at once. */
  lemma WorkersExclusive(disciplines: seq<Discipline>, roster: seq<Wallet>, steps: seq<Step>)
    ensures var h := Run(Initial(disciplines, roster), steps);
      && (forall q :: 0 <= q < |h.lanes| && h.lanes[q].discipline != Parallel ==> |h.lanes[q].workers| <= 1)
      && (NoDup(roster) ==>
            forall w :: Count(h.idle, w) + Sum(h.lanes, HoldingOf(w)) + Count(h.outside, w) <= 1)
  {
    ReachableInv(disciplines, roster, steps);
    NoDupCount(roster);
    var h := Run(Initial(disciplines, roster), steps);
    assert forall q :: 0 <= q < |h.lanes| ==> Core(h.lanes[q]);
    if NoDup(roster) {
      forall w ensures Count(h.idle, w) + Sum(h.lanes, HoldingOf(w)) + Count(h.outside, w) <= 1 {
        assert Count(roster, w) <= 1;
        assert Conserved(h, roster);
      }
    }
  }

  /** No lost wakeup: a queue with work always has a worker of its own or an armed timer. */
  lemma NoLostWakeup(disciplines: seq<Discipline>, roster: seq<Wallet>, steps: seq<Step>)
    ensures var h := Run(Initial(disciplines, roster), steps);
      forall q :: 0 <= q < |h.lanes| && h.lanes[q].queue != [] ==> h.lanes[q].workers != [] || h.lanes[q].timers > 0
  {
    ReachableInv(disciplines, roster, steps);
    var h := Run(Initial(disciplines, roster), steps);
    assert forall q :: 0 <= q < |h.lanes| ==> Awake(h.lanes[q]);
  }

  // ---- Progress ----

  /** The steps that get work done: a worker finishing, or a timer that finds both a job and a wallet. */
  ghost predicate Productive(h: Hub, step: Step) {
    && Enabled(h, step)
    && (step.Done?
        || (step.Timer? && !Busy(h.lanes[step.q]) && h.lanes[step.q].queue != [] && h.idle != []))
  }

  /** Lexicographic order on (unfinished jobs, queued jobs). */
  ghost predicate Below(a: Hub, b: Hub) {
    Unfinished(a) < Unfinished(b) || (Unfinished(a) == Unfinished(b) && Queued(a) < Queued(b))
  }

  lemma LaneMeasure(h: Hub, q: nat, l: Lane)
    requires q < |h.lanes|
    ensures Queued(WithLane(h, q, l)) + |h.lanes[q].queue| == Queued(h) + |l.queue|
    ensures Workers(WithLane(h, q, l)) + |h.lanes[q].workers| == Workers(h) + |l.workers|
  {
    SumUpdate(h.lanes, q, l, QueueLength());
    SumUpdate(h.lanes, q, l, WorkerCount());
  }

  /** A kick starts at most one job and never loses one. */
  lemma KickMeasure(h: Hub, q: nat)
    requires q < |h.lanes|
    ensures Unfinished(Kicked(h, q)) == Unfinished(h) && Kicked(h, q).outside == h.outside
    ensures Queued(Kicked(h, q))
         == Queued(h) - if !Busy(h.lanes[q]) && h.lanes[q].queue != [] && h.idle != [] then 1 else 0
  {
    var l := h.lanes[q];
    if Busy(l) || l.queue == [] {
    } else if h.idle == [] {
      LaneMeasure(h, q, l.(timers := l.timers + 1));
    } else {
      LaneMeasure(h, q, Started(h, q).lanes[q]);
    }
  }

  /** Productive steps lower the measure; apart from arrivals nothing raises it, and a timer
      that was not productive leaves it where it was. */
  lemma ProductiveStepsDescend(h: Hub, step: Step)
    requires Enabled(h, step) && !step.Enqueue?
    ensures Productive(h, step) ==> Below(Next(h, step), h) && Next(h, step).outside == h.outside
    ensures !Productive(h, step) ==> Unfinished(Next(h, step)) == Unfinished(h) && Queued(Next(h, step)) == Queued(h)
  {
    match step
    case Timer(q) =>
      var n := h.lanes[q].(timers := h.lanes[q].timers - 1);
      LaneMeasure(h, q, n);
      KickMeasure(WithLane(h, q, n), q);
    case Done(q, i, ok) =>
      var r := Released(h, q, i, ok);
      LaneMeasure(h, q, r.lanes[q]);
      if r.lanes[q].queue != [] {
        if r.lanes[q].discipline == Gateway {
          LaneMeasure(r, q, r.lanes[q].(timers := r.lanes[q].timers + 1));
        } else {
          KickMeasure(r, q);
        }
      }
    case OutsideTakes(_) =>
    case OutsideReturns(_) =>
  }

  /** While work remains, some productive step can be taken right now, exactly when other code
      does not sit on the whole roster. */
  lemma WorkProceedsIffWalletsReturn(h: Hub, roster: seq<Wallet>)
    requires HubInv(h, roster) && Unfinished(h) > 0
    ensures (exists step :: Productive(h, step)) <==> |h.outside| < |roster|
  {
    SumPositive(h.lanes, WorkerCount());
    SumPositive(h.lanes, QueueLength());
    if Workers(h) > 0 {
      var q :| 0 <= q < |h.lanes| && WorkerCount()(h.lanes[q]) > 0;
      assert Productive(h, Done(q, 0, true));
    } else if |h.outside| < |roster| {
      var q :| 0 <= q < |h.lanes| && QueueLength()(h.lanes[q]) > 0;
      assert WorkerCount()(h.lanes[q]) == 0;
      assert Awake(h.lanes[q]) && OneAtATime(h.lanes[q]);
      assert Productive(h, Timer(q));
    } else {
      assert forall q :: 0 <= q < |h.lanes| ==> WorkerCount()(h.lanes[q]) == 0;
      assert forall q :: 0 <= q < |h.lanes| ==> h.lanes[q].workers == [];
    }
  }

  ghost predicate TimersAndCompletions(steps: seq<Step>) {
    forall s: Step :: s in steps ==> s.Timer? || s.Done?
  }

  lemma RunCons(h: Hub, step: Step, rest: seq<Step>)
    ensures Run(h, [step] + rest) == Run(Next(h, step), rest)
  {
    assert ([step] + rest)[1..] == rest;
  }

  /** From any reachable state every pending job can be carried through by timers and completions alone, exactly when
      none is pending or other code does not sit on the whole roster. */
  lemma EverythingCanFinish(h: Hub, roster: seq<Wallet>)
    requires HubInv(h, roster)
    ensures (exists steps :: TimersAndCompletions(steps) && Unfinished(Run(h, steps)) == 0)
       <==> Unfinished(h) == 0 || |h.outside| < |roster|
  {
    if Unfinished(h) == 0 {
      assert TimersAndCompletions([]) && Run(h, []) == h;
    } else if |h.outside| < |roster| {
      FinishAll(h, roster);
    } else {
      forall steps | TimersAndCompletions(steps) ensures Unfinished(Run(h, steps)) > 0 {
        NothingFinishes(h, steps, roster);
      }
    }
  }

  /** While other code holds every wallet, timers and completions finish nothing. */
  lemma {:induction false} NothingFinishes(h: Hub, steps: seq<Step>, roster: seq<Wallet>)
    requires HubInv(h, roster) && Unfinished(h) > 0 && |h.outside| >= |roster| && TimersAndCompletions(steps)
    ensures Unfinished(Run(h, steps)) == Unfinished(h)
    decreases |steps|
  {
    if steps != [] {
      assert steps[0] in steps && forall s :: s in steps[1..] ==> s in steps;
      WorkProceedsIffWalletsReturn(h, roster);
      NextKeeps(h, steps[0], roster);
      if Enabled(h, steps[0]) {
        ProductiveStepsDescend(h, steps[0]);
        TimerTakesNoWallet(h, steps[0]);
      }
      NothingFinishes(Next(h, steps[0]), steps[1..], roster);
    }
  }

  lemma TimerTakesNoWallet(h: Hub, step: Step)
    requires step.Timer?
    ensures Next(h, step).outside == h.outside
  {
    if Enabled(h, step) {
      KickMeasure(WithLane(h, step.q, h.lanes[step.q].(timers := h.lanes[step.q].timers - 1)), step.q);
    }
  }

  lemma {:induction false} FinishAll(h: Hub, roster: seq<Wallet>)
    requires HubInv(h, roster) && |h.outside| < |roster|
    ensures exists steps :: TimersAndCompletions(steps) && Unfinished(Run(h, steps)) == 0
    decreases Unfinished(h), Queued(h)
  {
    if Unfinished(h) == 0 {
      assert Run(h, []) == h;
    } else {
      WorkProceedsIffWalletsReturn(h, roster);
      var step :| Productive(h, step);
      ProductiveStepsDescend(h, step);
      NextKeeps(h, step, roster);
      FinishAll(Next(h, step), roster);
      var rest :| TimersAndCompletions(rest) && Unfinished(Run(Next(h, step), rest)) == 0;
      RunCons(h, step, rest);
      assert TimersAndCompletions([step] + rest);
    }
  }

  // ---- The module-level pools and the functions that work on them ----

  /** The pools of all relay modules of the process and the CoNET list they draw from. */
  class RelayProcess {
    var lanes: seq<Lane>
    var idle: seq<Wallet>
    var outside: seq<Wallet>

    constructor (disciplines: seq<Discipline>, roster: seq<Wallet>)
      ensures Snapshot() == Initial(disciplines, roster)
    {
      lanes := seq(|disciplines|, i requires 0 <= i < |disciplines| => EmptyLane(disciplines[i]));
      idle, outside := roster, [];
    }

    ghost function Snapshot(): Hub
      reads this
    {
      Hub(lanes, idle, outside)
    }

    method ShiftJob(q: nat) returns (job: Option<Job>)
      requires q < |lanes|
      modifies this`lanes
      ensures old(lanes[q].queue) == [] ==> job == None && lanes == old(lanes)
      ensures old(lanes[q].queue) != [] ==>
        && job == Some(old(lanes[q].queue[0]))
        && lanes == old(lanes[q := lanes[q].(queue := lanes[q].queue[1..])])
    {
      if lanes[q].queue == [] { return None; }
      job := Some(lanes[q].queue[0]);
      lanes := lanes[q := lanes[q].(queue := lanes[q].queue[1..])];
    }

    method UnshiftJob(q: nat, job: Job)
      requires q < |lanes|
      modifies this`lanes
      ensures lanes == old(lanes[q := lanes[q].(queue := [job] + lanes[q].queue)])
    {
      lanes := lanes[q := lanes[q].(queue := [job] + lanes[q].queue)];
    }

    method ShiftSettleConet() returns (sc: Option<Wallet>)
      modifies this`idle
      ensures old(idle) == [] ==> sc == None && idle == []
      ensures old(idle) != [] ==> sc == Some(old(idle[0])) && idle == old(idle[1..])
    {
      if idle == [] { return None; }
      sc := Some(idle[0]);
      idle := idle[1..];
    }

    method SetTimeout(q: nat)
      requires q < |lanes|
      modifies this`lanes
      ensures lanes == old(lanes[q := lanes[q].(timers := lanes[q].timers + 1)])
    {
      lanes := lanes[q := lanes[q].(timers := lanes[q].timers + 1)];
    }

    method SetRunning(q: nat, flag: bool)
      requires q < |lanes|
      modifies this`lanes
      ensures lanes == old(lanes[q := lanes[q].(running := flag)])
    {
      lanes := lanes[q := lanes[q].(running := flag)];
    }

    /** The job is bound to its wallet and suspends at the first `await`. */
    method Suspend(q: nat, job: Job, sc: Wallet)
      requires q < |lanes|
      modifies this`lanes
      ensures lanes == old(lanes[q := lanes[q].(workers := lanes[q].workers + [Worker(job, sc)],
                                                started := lanes[q].started + [job])])
    {
      lanes := lanes[q := lanes[q].(workers := lanes[q].workers + [Worker(job, sc)],
                                    started := lanes[q].started + [job])];
    }

    // -- Parallel relays: kick, schedule and process call each other --

    method KickRelay(q: nat)
      requires q < |lanes| && lanes[q].discipline == Parallel
      modifies this`lanes, this`idle
      ensures Snapshot() == Kicked(old(Snapshot()), q)
      decreases idle == [], 2
    {
      RelayStart(q);
    }

    method ScheduleRelay(q: nat)
      requires q < |lanes| && lanes[q].discipline == Parallel
      modifies this`lanes, this`idle
      ensures Snapshot() == Rescheduled(old(Snapshot()), q)
      decreases idle == [], if idle == [] then 0 else 3
    {
      if lanes[q].queue == [] { return; }
      if idle != [] {
        KickRelay(q);
        return;
      }
      SetTimeout(q);
    }

    /** The relay process up to its first `await`: take a job, then a wallet, or put the job back. */
    method RelayStart(q: nat)
      requires q < |lanes| && lanes[q].discipline == Parallel
      modifies this`lanes, this`idle
      ensures Snapshot() == Kicked(old(Snapshot()), q)
      decreases idle == [], 1
    {
      ghost var was := lanes[q];
      var job := ShiftJob(q);
      if job.None? { return; }
      var sc := ShiftSettleConet();
      if sc.None? {
        UnshiftJob(q, job.value);
        assert [was.queue[0]] + was.queue[1..] == was.queue;
        assert lanes[q] == was && lanes == old(lanes);
        ScheduleRelay(q);
        return;
      }
      Suspend(q, job.value, sc.value);
    }

    /** The rest of the relay process, whether the chain calls succeeded or threw. */
    method RelayFinish(q: nat, i: nat, ok: bool)
      requires q < |lanes| && lanes[q].discipline == Parallel && i < |lanes[q].workers|
      modifies this`lanes, this`idle
      ensures Snapshot() == Rescheduled(Released(old(Snapshot()), q, i, ok), q)
    {
      var w := Respond(q, i, ok);
      idle := [w.wallet] + idle;
      ScheduleRelay(q);
    }

    /** Answers the job unless its headers are out, and retires the worker. */
    method Respond(q: nat, i: nat, ok: bool) returns (w: Worker)
      requires q < |lanes| && i < |lanes[q].workers|
      modifies this`lanes
      ensures w == old(lanes[q].workers[i])
      ensures lanes == old(lanes[q := Replied(lanes[q], w.job, ok).(
        workers := RemoveAt(lanes[q].workers, i), finished := lanes[q].finished + [Completion(w.job, ok)])])
    {
      w := lanes[q].workers[i];
      var l := lanes[q];
      if w.job.wantsReply && w.job.id !in l.headersSent {
        l := l.(replies := l.replies + [Reply(w.job.id, ok)], headersSent := l.headersSent + {w.job.id});
      }
      lanes := lanes[q := l.(workers := RemoveAt(l.workers, i), finished := l.finished + [Completion(w.job, ok)])];
    }

    // -- Flagged presses: the press itself raises and lowers the flag --

    method PressStart(q: nat)
      requires q < |lanes| && lanes[q].discipline == Flagged
      modifies this`lanes, this`idle
      ensures Snapshot() == Kicked(old(Snapshot()), q)
      decreases idle == [], 1
    {
      ghost var was := lanes[q];
      if lanes[q].running { return; }
      SetRunning(q, true);
      var job := ShiftJob(q);
      if job.None? {
        SetRunning(q, false);
        assert lanes[q] == was && lanes == old(lanes);
        return;
      }
      var sc := ShiftSettleConet();
      if sc.None? {
        UnshiftJob(q, job.value);
        SetRunning(q, false);
        assert [was.queue[0]] + was.queue[1..] == was.queue;
        assert lanes[q] == was && lanes == old(lanes);
        SchedulePress(q);
        return;
      }
      Suspend(q, job.value, sc.value);
    }

    method SchedulePress(q: nat)
      requires q < |lanes| && lanes[q].discipline == Flagged
      modifies this`lanes, this`idle
      ensures Snapshot() == Rescheduled(old(Snapshot()), q)
      decreases idle == [], if idle == [] then 0 else 3
    {
      if lanes[q].queue == [] { return; }
      if idle != [] {
        PressStart(q);
      } else {
        SetTimeout(q);
      }
    }

    method PressFinish(q: nat, i: nat, ok: bool)
      requires q < |lanes| && lanes[q].discipline == Flagged && i < |lanes[q].workers|
      modifies this`lanes, this`idle
      ensures Snapshot() == Rescheduled(Released(old(Snapshot()), q, i, ok), q)
    {
      var w := Respond(q, i, ok);
      idle := [w.wallet] + idle;
      SetRunning(q, false);
      SchedulePress(q);
    }

    // -- The card gateway: the kick raises the flag, its `finally` lowers it --

    method KickGateway(q: nat)
      requires q < |lanes| && lanes[q].discipline == Gateway
      modifies this`lanes, this`idle
      ensures Snapshot() == Kicked(old(Snapshot()), q)
    {
      ghost var was := lanes[q];
      if lanes[q].running { return; }
      SetRunning(q, true);
      var suspended := GatewayPressStart(q);
      if !suspended {
        SetRunning(q, false);
        assert was.queue == [] ==> lanes[q] == was && lanes == old(lanes);
      }
    }

    method GatewayPressStart(q: nat) returns (suspended: bool)
      requires q < |lanes|
      modifies this`lanes, this`idle
      ensures suspended == (old(lanes[q].queue) != [] && old(idle) != [])
      ensures outside == old(outside)
      ensures suspended ==>
        && idle == old(idle[1..])
        && lanes == old(lanes[q := lanes[q].(
             queue := lanes[q].queue[1..],
             workers := lanes[q].workers + [Worker(lanes[q].queue[0], idle[0])],
             started := lanes[q].started + [lanes[q].queue[0]])])
      ensures !suspended ==>
        && idle == old(idle)
        && lanes == old(if lanes[q].queue == [] then lanes else lanes[q := lanes[q].(timers := lanes[q].timers + 1)])
    {
      ghost var was := lanes[q];
      var job := ShiftJob(q);
      if job.None? { return false; }
      var sc := ShiftSettleConet();
      if sc.None? {
        UnshiftJob(q, job.value);
        assert [was.queue[0]] + was.queue[1..] == was.queue;
        assert lanes[q] == was && lanes == old(lanes);
        SetTimeout(q);
        return false;
      }
      Suspend(q, job.value, sc.value);
      return true;
    }

    method GatewayPressFinish(q: nat, i: nat, ok: bool)
      requires q < |lanes| && lanes[q].discipline == Gateway && i < |lanes[q].workers|
      modifies this`lanes, this`idle
      ensures Snapshot() == Rescheduled(Released(old(Snapshot()), q, i, ok), q)
    {
      var w := Respond(q, i, ok);
      idle := [w.wallet] + idle;
      if lanes[q].queue != [] { SetTimeout(q); }
      SetRunning(q, false);
    }

    /** What the HTTP handlers do: push the job, then kick its relay. */
    method Enqueue(q: nat, wantsReply: bool, answeredAlready: bool)
      requires q < |lanes|
      modifies this`lanes, this`idle
      ensures Snapshot() == Enqueued(old(Snapshot()), q, wantsReply, answeredAlready)
    {
      var l := lanes[q];
      var job := Job(|l.arrived|, wantsReply, answeredAlready);
      lanes := lanes[q := l.(
        queue := l.queue + [job],
        arrived := l.arrived + [job],
        headersSent := if answeredAlready then l.headersSent + {job.id} else l.headersSent)];
      Kick(q);
    }

    method FireTimer(q: nat)
      requires q < |lanes| && lanes[q].timers > 0
      modifies this`lanes, this`idle
      ensures Snapshot() == TimerFired(old(Snapshot()), q)
    {
      lanes := lanes[q := lanes[q].(timers := lanes[q].timers - 1)];
      Kick(q);
    }

    method Kick(q: nat)
      requires q < |lanes|
      modifies this`lanes, this`idle
      ensures Snapshot() == Kicked(old(Snapshot()), q)
    {
      match lanes[q].discipline
      case Parallel => KickRelay(q);
      case Flagged => PressStart(q);
      case Gateway => KickGateway(q);
    }
  }
}
