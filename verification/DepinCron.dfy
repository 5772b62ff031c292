/**
 * The paginated DePIN airdrop cron (src/gbDepinAirdrop.ts). A tick asks the chain for the page at
 * the cursor, suspends, and then queues a job at whatever the cursor is by then; a worker takes the
 * queued jobs one at a time and moves the cursor when a page transaction succeeds. A page with
 * `advance` moves the contract's global clock and ends the sweep.
 *
 * With `n` nodes and pages of `P`, the code as written closes every sweep with all nodes paid in
 * every run exactly when n < P. Otherwise a closing page can be queued a second time while the
 * first is pending, or be queued at a cursor that was reset during the fetch; without those two
 * pushes every sweep is complete, and each of them can leave a gap (the second one given two nodes).
 */
module DepinCron {
  import opened Common

  datatype Page = Page(start: nat, size: nat, advance: bool)

  /** `WholeJob` is the HTTP-requested airdrop over all nodes: it shares the pool but never moves the cursor. */
  datatype Job = PageJob(page: Page) | WholeJob

  /** `tick` is the start index a suspended tick has asked the chain for. `paid` lists the pages
      whose transaction succeeded, oldest first. */
  datatype Cron = Cron(
    cursor: nat,
    tick: Option<nat>,
    queue: seq<Job>,
    running: Option<Job>,
    paid: seq<Page>)

  const INITIAL := Cron(0, None, [], None, [])

  datatype Step = TickFetch | TickAbort | TickPush | Request | Begin | Succeed | Fail

  /** How many nodes the registry returns for a page request. */
  function PageLength(n: nat, P: nat, start: nat): nat {
    if start >= n then 0 else if n - start < P then n - start else P
  }

  /** The job a tick queues at `cursor` after fetching the page at `fetched`. */
  function PlannedPage(n: nat, P: nat, fetched: nat, cursor: nat): Page {
    var len := PageLength(n, P, fetched);
    Page(cursor, if len == 0 then 1 else len, len == 0 || len < P)
  }

  function CursorAfter(p: Page): nat {
    if p.advance then 0 else p.start + p.size
  }

  /** Steps that are not possible stand for nothing happening. */
  function Next(n: nat, P: nat, s: Cron, step: Step): Cron {
    match step
    case TickFetch => if s.tick.None? then s.(tick := Some(s.cursor)) else s
    case TickAbort => s.(tick := None)
    case TickPush =>
      if s.tick.None? then s
      else s.(queue := s.queue + [PageJob(PlannedPage(n, P, s.tick.value, s.cursor))], tick := None)
    case Request => s.(queue := s.queue + [WholeJob])
    case Begin =>
      if s.running.None? && s.queue != [] then s.(running := Some(s.queue[0]), queue := s.queue[1..]) else s
    case Succeed =>
      (match s.running
       case None => s
       case Some(WholeJob) => s.(running := None)
       case Some(PageJob(p)) => s.(running := None, paid := s.paid + [p], cursor := CursorAfter(p)))
    case Fail => s.(running := None)
  }

  function Run(n: nat, P: nat, s: Cron, steps: seq<Step>): Cron
    decreases |steps|
  {
    if steps == [] then s else Run(n, P, Next(n, P, s, steps[0]), steps[1..])
  }

  /** What a tick that asked for the page at `asked` queues, behind the jobs that are there: a page at the cursor as it
      is now, as long as the page that was asked for, up to the last node; it closes the sweep exactly when fewer
      nodes than a page were left there, and with none left it is a single place. */
  lemma TickQueues(n: nat, P: nat, s: Cron, asked: nat)
    requires P > 0 && s.tick == Some(asked)
    ensures var t := Next(n, P, s, TickPush);
      && |t.queue| == |s.queue| + 1 && t.queue[..|s.queue|] == s.queue && t.queue[|s.queue|].PageJob?
      && t == s.(queue := t.queue, tick := None)
      && var p := t.queue[|s.queue|].page;
         && p.start == s.cursor
         && (asked < n ==> 1 <= p.size <= P && asked + p.size <= n && (p.advance <==> asked + P > n))
         && (asked < n && p.advance ==> asked + p.size == n)
         && (asked < n && !p.advance ==> p.size == P)
         && (asked >= n ==> p.size == 1 && p.advance)
  {
    var q, j := s.queue, PageJob(PlannedPage(n, P, asked, s.cursor));
    assert (q + [j])[..|q|] == q && (q + [j])[|q|] == j;
  }

  /** An undisturbed tick queues a page of the nodes that are left: it starts at the cursor and never runs past the
      last node, unless there was none left. */
  lemma UndisturbedTick(n: nat, P: nat, s: Cron)
    requires P > 0 && s.tick.None?
    ensures var t := Next(n, P, Next(n, P, s, TickFetch), TickPush);
      && |t.queue| == |s.queue| + 1 && t.queue[..|s.queue|] == s.queue && t == s.(queue := t.queue)
      && match t.queue[|s.queue|] {
           case WholeJob => false
           case PageJob(p) =>
             && p.start == s.cursor
             && (s.cursor < n ==>
                   1 <= p.size <= P && p.start + p.size <= n && (p.advance ==> p.start + p.size == n)
                   && (p.advance <==> n - s.cursor < P))
             && (s.cursor >= n ==> p == Page(s.cursor, 1, true))
         }
  {
    TickQueues(n, P, Next(n, P, s, TickFetch), s.cursor);
  }

  // ---- Sweeps ----

  /** The pages paid since the clock last advanced. */
  function OpenSweep(paid: seq<Page>): seq<Page> {
    if paid == [] || paid[|paid| - 1].advance then []
    else OpenSweep(paid[..|paid| - 1]) + [paid[|paid| - 1]]
  }

  ghost predicate PaidIn(sweep: seq<Page>, x: nat) {
    exists p :: p in sweep && p.start <= x < p.start + p.size
  }

  ghost predicate Covers(sweep: seq<Page>, n: nat) {
    forall x: nat :: x < n ==> PaidIn(sweep, x)
  }

  /** Every clock advance so far ended a sweep that paid every node. */
  ghost predicate NoGaps(n: nat, paid: seq<Page>) {
    paid != [] ==>
      var front, last := paid[..|paid| - 1], paid[|paid| - 1];
      NoGaps(n, front) && (last.advance ==> Covers(OpenSweep(front) + [last], n))
  }

  /** Full pages from index 0 upward, each starting where the one before did or one page further. */
  ghost predicate Climbs(P: nat, sweep: seq<Page>) {
    && (sweep != [] ==> sweep[0].start == 0)
    && (forall p :: p in sweep ==> p.size == P && !p.advance)
    && (forall i :: 0 <= i < |sweep| - 1 ==>
          sweep[i + 1].start == sweep[i].start || sweep[i + 1].start == sweep[i].start + P)
  }

  /** Every clock advance so far ended a climb, with a page that reaches the last node. */
  ghost predicate Orderly(n: nat, P: nat, paid: seq<Page>) {
    paid != [] ==>
      var front, last := paid[..|paid| - 1], paid[|paid| - 1];
      && Orderly(n, P, front)
      && (last.advance ==>
            && Climbs(P, OpenSweep(front))
            && (last.start == Reached(P, OpenSweep(front)) || last.start + P == Reached(P, OpenSweep(front)))
            && last.start + last.size >= n)
  }

  /** The index below which a climb has paid everything. */
  function Reached(P: nat, sweep: seq<Page>): nat {
    if sweep == [] then 0 else sweep[|sweep| - 1].start + P
  }

  lemma {:induction false} ClimbCovers(P: nat, sweep: seq<Page>)
    requires Climbs(P, sweep)
    ensures Covers(sweep, Reached(P, sweep))
  {
    if sweep != [] {
      var front, last := sweep[..|sweep| - 1], sweep[|sweep| - 1];
      assert forall p :: p in front ==> p in sweep;
      ClimbCovers(P, front);
      forall x: nat | x < Reached(P, sweep) ensures PaidIn(sweep, x) {
        if last.start <= x {
          assert last in sweep;
        } else {
          assert last.start <= Reached(P, front);
          assert PaidIn(front, x);
        }
      }
    }
  }

  // ---- What is pending ----

  function Jobs(s: Cron): seq<Job> {
    (if s.running.None? then [] else [s.running.value]) + s.queue
  }

  function Pages(jobs: seq<Job>): seq<Page> {
    if jobs == [] then []
    else (if jobs[0].WholeJob? then [] else [jobs[0].page]) + Pages(jobs[1..])
  }

  lemma {:induction false} PagesAppend(jobs: seq<Job>, j: Job)
    ensures Pages(jobs + [j]) == Pages(jobs) + if j.WholeJob? then [] else [j.page]
  {
    if jobs == [] {
      assert (jobs + [j])[1..] == [];
    } else {
      PagesAppend(jobs[1..], j);
      assert (jobs + [j])[1..] == jobs[1..] + [j];
    }
  }

  function Pending(s: Cron): seq<Page> {
    Pages(Jobs(s))
  }

  ghost predicate AnyClosing(ps: seq<Page>) {
    exists p :: p in ps && p.advance
  }

  /** The pushes that keep sweeps complete: a full page, or a closing page when no closing page
      is pending and the cursor was not reset since the fetch. With a single node the reset does no
      harm, because the closing page pays that node itself; below one page nothing does. */
  ghost predicate SafePush(n: nat, P: nat, s: Cron)
    requires s.tick.Some?
  {
    n < P || PageLength(n, P, s.tick.value) == P || ((s.tick.value <= s.cursor || n == 1) && !AnyClosing(Pending(s)))
  }

  ghost predicate SafeRun(n: nat, P: nat, s: Cron, steps: seq<Step>)
    decreases |steps|
  {
    steps != [] ==>
      && (steps[0].TickPush? && s.tick.Some? ==> SafePush(n, P, s))
      && SafeRun(n, P, Next(n, P, s, steps[0]), steps[1..])
  }

  /** Pending pages start at the cursor or one page below it, lower ones first; a closing page is
      pending only as the last one, and only near the end of the registry. */
  ghost predicate Staged(n: nat, P: nat, ps: seq<Page>, cursor: nat) {
    && (forall p :: p in ps ==>
          && (p.start == cursor || p.start + P == cursor)
          && (if p.advance then p.start + p.size >= n && p.start + P > n else p.size == P))
    && (forall i, j :: 0 <= i < j < |ps| ==> ps[i].start <= ps[j].start && !ps[i].advance)
  }

  ghost predicate TickInv(n: nat, P: nat, tick: Option<nat>, ps: seq<Page>, cursor: nat) {
    tick.Some? ==>
      && (tick.value <= cursor || (cursor == 0 && ps == []))
      && (AnyClosing(ps) ==> tick.value + P > n)
  }

  ghost predicate Books(n: nat, P: nat, cursor: nat, tick: Option<nat>, ps: seq<Page>, paid: seq<Page>) {
    && Climbs(P, OpenSweep(paid))
    && cursor == Reached(P, OpenSweep(paid))
    && (OpenSweep(paid) == [] ==> forall p :: p in ps ==> p.start == 0)
    && Staged(n, P, ps, cursor)
    && TickInv(n, P, tick, ps, cursor)
    && Orderly(n, P, paid)
    && NoGaps(n, paid)
  }

  ghost predicate Inv(n: nat, P: nat, s: Cron) {
    Books(n, P, s.cursor, s.tick, Pending(s), s.paid)
  }

  /** One node, and the closing page that a tick queued at the reset cursor is still pending. */
  ghost predicate Restarted(s: Cron) {
    && s.cursor == 0
    && (s.tick.Some? ==> s.tick.value == 0)
    && Pending(s) != [] && Pending(s)[0] == Page(0, 1, true)
    && (forall k :: 1 <= k < |Pending(s)| ==> Pending(s)[k] == Page(0, 1, false))
    && OpenSweep(s.paid) == [] && Orderly(1, 1, s.paid) && NoGaps(1, s.paid)
  }

  /** What holds after any run with safe pushes. */
  ghost predicate Safe(n: nat, P: nat, s: Cron) {
    Inv(n, P, s) || (n == 1 && P == 1 && Restarted(s))
  }

  lemma PushKeeps(n: nat, P: nat, s: Cron)
    requires 1 <= P <= n && Inv(n, P, s) && s.tick.Some? && SafePush(n, P, s)
    requires PageLength(n, P, s.tick.value) == P || s.tick.value <= s.cursor
    ensures Inv(n, P, Next(n, P, s, TickPush))
  {
    PushedPage(n, P, s);
  }

  lemma ResetPushRestarts(s: Cron)
    requires Inv(1, 1, s) && s.tick.Some? && s.tick.value > s.cursor
    ensures Restarted(Next(1, 1, s, TickPush))
  {
    PushedPage(1, 1, s);
    ResetTick(s);
    assert [] + [Page(0, 1, true)] == [Page(0, 1, true)];
  }

  lemma PushedPage(n: nat, P: nat, s: Cron)
    requires s.tick.Some?
    ensures Pending(Next(n, P, s, TickPush)) == Pending(s) + [PlannedPage(n, P, s.tick.value, s.cursor)]
  {
    var p := PlannedPage(n, P, s.tick.value, s.cursor);
    assert Jobs(Next(n, P, s, TickPush)) == Jobs(s) + [PageJob(p)];
    PagesAppend(Jobs(s), PageJob(p));
  }

  /** A tick whose cursor was reset finds nothing pending, and plans to close at the start. */
  lemma ResetTick(s: Cron)
    requires Inv(1, 1, s) && s.tick.Some? && s.tick.value > s.cursor
    ensures s.cursor == 0 && Pending(s) == [] && OpenSweep(s.paid) == []
    ensures PlannedPage(1, 1, s.tick.value, s.cursor) == Page(0, 1, true)
  {
  }

  /** Whatever becomes of the running job, what is left pending is the queue. */
  lemma DropFirst(n: nat, P: nat, s: Cron)
    requires s.running.Some?
    ensures Pending(Next(n, P, s, Succeed)) == Pages(s.queue) == Pending(Next(n, P, s, Fail))
    ensures s.running.value.WholeJob? ==> Pending(s) == Pages(s.queue)
    ensures s.running.value.PageJob? ==>
      Pending(s) != [] && Pending(s)[0] == s.running.value.page && Pending(s)[1..] == Pages(s.queue)
  {
    assert Jobs(s)[1..] == s.queue;
    assert [] + Pages(s.queue) == Pages(s.queue);
    assert Jobs(Next(n, P, s, Succeed)) == s.queue == Jobs(Next(n, P, s, Fail));
  }

  /** Taking the first pending page, and moving the cursor past it or not, keeps the rest staged. */
  lemma StagedAdvance(n: nat, P: nat, ps: seq<Page>, cursor: nat)
    requires Staged(n, P, ps, cursor) && ps != []
    ensures Staged(n, P, ps[1..], cursor)
    ensures ps[0].advance ==> |ps| == 1
    ensures !ps[0].advance ==> Staged(n, P, ps[1..], ps[0].start + P)
    ensures forall p :: p in ps[1..] ==> p in ps
  {
    var rest := ps[1..];
    assert forall i :: 0 <= i < |rest| ==> rest[i] == ps[i + 1] && ps[0].start <= ps[i + 1].start;
    assert |ps| > 1 ==> ps[1] in ps && !ps[0].advance;
    forall p | p in rest ensures p in ps && ps[0].start <= p.start {
      var i :| 0 <= i < |rest| && rest[i] == p;
      assert ps[i + 1] == p;
    }
  }

  lemma ClosingCovers(n: nat, P: nat, sweep: seq<Page>, p: Page)
    requires Climbs(P, sweep) && p.start <= Reached(P, sweep) && p.start + p.size >= n
    ensures Covers(sweep + [p], n)
  {
    ClimbCovers(P, sweep);
    forall x: nat | x < n ensures PaidIn(sweep + [p], x) {
      if x < p.start {
        assert PaidIn(sweep, x);
      } else {
        assert p in sweep + [p];
      }
    }
  }

  lemma AppendPage(n: nat, P: nat, paid: seq<Page>, p: Page)
    requires Orderly(n, P, paid) && NoGaps(n, paid)
    ensures !p.advance ==> OpenSweep(paid + [p]) == OpenSweep(paid) + [p]
    ensures !p.advance ==> Orderly(n, P, paid + [p]) && NoGaps(n, paid + [p])
    ensures p.advance ==> OpenSweep(paid + [p]) == []
    ensures p.advance && Covers(OpenSweep(paid) + [p], n) ==> NoGaps(n, paid + [p])
    ensures p.advance && Climbs(P, OpenSweep(paid)) && p.start + p.size >= n
            && (p.start == Reached(P, OpenSweep(paid)) || p.start + P == Reached(P, OpenSweep(paid)))
            ==> Orderly(n, P, paid + [p])
  {
    assert (paid + [p])[..|paid|] == paid;
  }

  lemma ClimbExtends(P: nat, sweep: seq<Page>, p: Page)
    requires Climbs(P, sweep) && p.size == P && !p.advance
    requires p.start == Reached(P, sweep) || p.start + P == Reached(P, sweep)
    requires sweep == [] ==> p.start == 0
    ensures Climbs(P, sweep + [p]) && Reached(P, sweep + [p]) == p.start + P
  {
  }

  lemma FullPageKeeps(n: nat, P: nat, cursor: nat, tick: Option<nat>, ps: seq<Page>, paid: seq<Page>)
    requires 1 <= P <= n && Books(n, P, cursor, tick, ps, paid) && ps != [] && !ps[0].advance
    ensures ps[0].size == P
    ensures Books(n, P, ps[0].start + P, tick, ps[1..], paid + [ps[0]])
  {
    var p := ps[0];
    assert p in ps;
    ClimbExtends(P, OpenSweep(paid), p);
    AppendPage(n, P, paid, p);
    StagedAdvance(n, P, ps, cursor);
  }

  lemma ClosingKeeps(n: nat, P: nat, cursor: nat, tick: Option<nat>, ps: seq<Page>, paid: seq<Page>)
    requires 1 <= P <= n && Books(n, P, cursor, tick, ps, paid) && ps != [] && ps[0].advance
    ensures Books(n, P, 0, tick, ps[1..], paid + [ps[0]])
  {
    var p := ps[0];
    assert p in ps;
    ClosingCovers(n, P, OpenSweep(paid), p);
    AppendPage(n, P, paid, p);
    StagedAdvance(n, P, ps, cursor);
    assert ps[1..] == [];
  }

  lemma SucceedKeeps(n: nat, P: nat, s: Cron)
    requires 1 <= P <= n && Inv(n, P, s) && s.running.Some?
    ensures Inv(n, P, Next(n, P, s, Succeed))
  {
    DropFirst(n, P, s);
    if s.running.value.PageJob? {
      if Pending(s)[0].advance {
        ClosingKeeps(n, P, s.cursor, s.tick, Pending(s), s.paid);
      } else {
        FullPageKeeps(n, P, s.cursor, s.tick, Pending(s), s.paid);
      }
    }
  }

  lemma FailKeeps(n: nat, P: nat, s: Cron)
    requires 1 <= P <= n && Inv(n, P, s) && s.running.Some?
    ensures Inv(n, P, Next(n, P, s, Fail))
  {
    DropFirst(n, P, s);
    if s.running.value.PageJob? {
      StagedAdvance(n, P, Pending(s), s.cursor);
    }
  }

  /** What the steps that pay nothing do to the pending pages. */
  lemma QuietStepsPending(n: nat, P: nat, s: Cron)
    ensures Pending(Next(n, P, s, TickFetch)) == Pending(s) == Pending(Next(n, P, s, TickAbort))
    ensures Pending(Next(n, P, s, Request)) == Pending(s)
    ensures Pending(Next(n, P, s, Begin)) == Pending(s)
  {
    assert Jobs(Next(n, P, s, Request)) == Jobs(s) + [WholeJob];
    PagesAppend(Jobs(s), WholeJob);
    assert Pending(s) + [] == Pending(s);
    assert Jobs(Next(n, P, s, Begin)) == Jobs(s);
  }

  lemma FetchKeeps(n: nat, P: nat, s: Cron)
    requires 1 <= P <= n && Inv(n, P, s)
    ensures Inv(n, P, Next(n, P, s, TickFetch))
  {
    QuietStepsPending(n, P, s);
    if s.tick.None? && AnyClosing(Pending(s)) {
      var p :| p in Pending(s) && p.advance;
      assert s.cursor >= p.start;
    }
  }

  /** The pending pages of a restarted cron: full ones gather behind the closing one until that is through. */
  lemma RestartedNext(s: Cron, step: Step)
    requires Restarted(s)
    ensures Safe(1, 1, Next(1, 1, s, step))
  {
    var t := Next(1, 1, s, step);
    QuietStepsPending(1, 1, s);
    match step
    case TickFetch =>
    case TickAbort =>
    case TickPush =>
      if s.tick.Some? {
        assert Jobs(t) == Jobs(s) + [PageJob(Page(0, 1, false))];
        PagesAppend(Jobs(s), PageJob(Page(0, 1, false)));
      }
    case Request =>
    case Begin =>
    case Succeed => if s.running.Some? { RestartedDone(s, step); }
    case Fail => if s.running.Some? { RestartedDone(s, step); }
  }

  lemma RestartedDone(s: Cron, step: Step)
    requires Restarted(s) && s.running.Some? && (step == Succeed || step == Fail)
    ensures Safe(1, 1, Next(1, 1, s, step))
  {
    DropFirst(1, 1, s);
    if s.running.value.PageJob? {
      var u, rest := Pending(s)[0], Pending(s)[1..];
      assert forall k :: 0 <= k < |rest| ==> rest[k] == Page(0, 1, false);
      AppendPage(1, 1, s.paid, u);
      ClosingCovers(1, 1, [], u);
      assert Books(1, 1, 0, s.tick, rest, s.paid);
      assert Books(1, 1, 0, s.tick, rest, s.paid + [u]);
    }
  }

  lemma SafeNext(n: nat, P: nat, s: Cron, step: Step)
    requires 1 <= P <= n && Safe(n, P, s)
    requires step.TickPush? && s.tick.Some? ==> SafePush(n, P, s)
    ensures Safe(n, P, Next(n, P, s, step))
  {
    if !Inv(n, P, s) {
      RestartedNext(s, step);
    } else if step.TickPush? && s.tick.Some? && PageLength(n, P, s.tick.value) != P && s.tick.value > s.cursor {
      ResetPushRestarts(s);
    } else {
      NextKeeps(n, P, s, step);
    }
  }

  lemma NextKeeps(n: nat, P: nat, s: Cron, step: Step)
    requires 1 <= P <= n && Inv(n, P, s)
    requires step.TickPush? && s.tick.Some? ==>
      SafePush(n, P, s) && (PageLength(n, P, s.tick.value) == P || s.tick.value <= s.cursor)
    ensures Inv(n, P, Next(n, P, s, step))
  {
    match step
    case TickFetch => FetchKeeps(n, P, s);
    case TickAbort => QuietStepsPending(n, P, s);
    case TickPush => if s.tick.Some? { PushKeeps(n, P, s); }
    case Request => QuietStepsPending(n, P, s);
    case Begin => QuietStepsPending(n, P, s);
    case Succeed => if s.running.Some? { SucceedKeeps(n, P, s); }
    case Fail => if s.running.Some? { FailKeeps(n, P, s); }
  }

  lemma {:induction false} SafeRunKeeps(n: nat, P: nat, s: Cron, steps: seq<Step>)
    requires 1 <= P <= n && Safe(n, P, s) && SafeRun(n, P, s, steps)
    ensures Safe(n, P, Run(n, P, s, steps))
    decreases |steps|
  {
    if steps != [] {
      SafeNext(n, P, s, steps[0]);
      SafeRunKeeps(n, P, Next(n, P, s, steps[0]), steps[1..]);
    }
  }

  // ---- Fewer nodes than one page: every tick plans the same closing page ----

  ghost predicate SmallInv(n: nat, P: nat, s: Cron) {
    && s.cursor == 0
    && (s.tick.Some? ==> s.tick.value == 0)
    && (forall p :: p in Pending(s) ==> p == Page(0, if n == 0 then 1 else n, true))
    && OpenSweep(s.paid) == []
    && Orderly(n, P, s.paid)
    && NoGaps(n, s.paid)
  }

  lemma SmallSucceedKeeps(n: nat, P: nat, s: Cron)
    requires n < P && SmallInv(n, P, s) && s.running.Some?
    ensures SmallInv(n, P, Next(n, P, s, Succeed)) && SmallInv(n, P, Next(n, P, s, Fail))
  {
    DropFirst(n, P, s);
    if s.running.value.PageJob? {
      var p := s.running.value.page;
      assert p in Pending(s);
      assert forall q :: q in Pending(s)[1..] ==> q in Pending(s);
      SmallPagePaid(n, P, s.paid, p);
    }
  }

  lemma SmallPagePaid(n: nat, P: nat, paid: seq<Page>, p: Page)
    requires OpenSweep(paid) == [] && Orderly(n, P, paid) && NoGaps(n, paid)
    requires p == Page(0, if n == 0 then 1 else n, true)
    ensures OpenSweep(paid + [p]) == [] && Orderly(n, P, paid + [p]) && NoGaps(n, paid + [p])
  {
    ClosingCovers(n, P, [], p);
    AppendPage(n, P, paid, p);
  }

  lemma SmallNextKeeps(n: nat, P: nat, s: Cron, step: Step)
    requires n < P && SmallInv(n, P, s)
    ensures SmallInv(n, P, Next(n, P, s, step))
  {
    QuietStepsPending(n, P, s);
    if step.TickPush? && s.tick.Some? {
      var p := PlannedPage(n, P, 0, 0);
      assert Jobs(Next(n, P, s, TickPush)) == Jobs(s) + [PageJob(p)];
      PagesAppend(Jobs(s), PageJob(p));
    }
    if s.running.Some? { SmallSucceedKeeps(n, P, s); }
  }

  lemma {:induction false} SmallRunKeeps(n: nat, P: nat, s: Cron, steps: seq<Step>)
    requires n < P && SmallInv(n, P, s)
    ensures SmallInv(n, P, Run(n, P, s, steps))
    decreases |steps|
  {
    if steps != [] {
      SmallNextKeeps(n, P, s, steps[0]);
      SmallRunKeeps(n, P, Next(n, P, s, steps[0]), steps[1..]);
    }
  }

  // ---- How an unsafe push leaves a gap ----

  lemma RunConcat(n: nat, P: nat, s: Cron, a: seq<Step>, b: seq<Step>)
    ensures Run(n, P, s, a + b) == Run(n, P, Run(n, P, s, a), b)
    decreases |a|
  {
    if a == [] {
      assert a + b == b;
    } else {
      RunConcat(n, P, Next(n, P, s, a[0]), a[1..], b);
      assert (a + b)[0] == a[0] && (a + b)[1..] == a[1..] + b;
    }
  }

  /** Take the next job and let it succeed, as often as there are jobs. */
  function Drain(jobs: nat): seq<Step> {
    if jobs == 0 then [] else [Begin, Succeed] + Drain(jobs - 1)
  }

  /** Taking one job and letting it succeed pays its page, whatever else is going on. */
  lemma DrainOne(n: nat, P: nat, s: Cron)
    requires Jobs(s) != []
    ensures var t := Next(n, P, Next(n, P, s, Begin), Succeed);
      |Jobs(t)| == |Jobs(s)| - 1 && t.paid + Pending(t) == s.paid + Pending(s)
  {
    var b := Next(n, P, s, Begin);
    assert Jobs(b) == Jobs(s) && b.paid == s.paid;
    DropFirst(n, P, b);
    var t := Next(n, P, b, Succeed);
    assert Jobs(t) == b.queue;
    if b.running.value.PageJob? {
      assert t.paid + Pending(t) == b.paid + ([b.running.value.page] + Pages(b.queue));
      assert [b.running.value.page] + Pages(b.queue) == Pending(b);
    }
  }

  lemma {:induction false} DrainPaysAll(n: nat, P: nat, s: Cron)
    ensures Run(n, P, s, Drain(|Jobs(s)|)).paid == s.paid + Pending(s)
    ensures SafeRun(n, P, s, Drain(|Jobs(s)|))
    decreases |Jobs(s)|
  {
    var k := |Jobs(s)|;
    if k > 0 {
      DrainOne(n, P, s);
      var b := Next(n, P, s, Begin);
      var t := Next(n, P, b, Succeed);
      DrainPaysAll(n, P, t);
      var d := Drain(k);
      var d1 := d[1..];
      assert d[0] == Begin && d1[0] == Succeed && d1[1..] == Drain(k - 1);
      assert Run(n, P, b, d1) == Run(n, P, t, Drain(k - 1));
    }
  }

  /** After a closing page, a further closing page makes up a sweep of its own. */
  lemma SweepAfterClosing(n: nat, paid: seq<Page>, ps: seq<Page>, u: Page)
    requires ps != [] && ps[|ps| - 1].advance && u.advance
    ensures NoGaps(n, paid + (ps + [u])) ==> Covers([u], n)
  {
    var all := paid + (ps + [u]);
    var before := paid + ps;
    assert all[..|all| - 1] == before && all[|all| - 1] == u;
    assert before[|before| - 1] == ps[|ps| - 1];
    assert OpenSweep(before) == [];
    assert [] + [u] == [u];
  }

  lemma ClosingIsLast(n: nat, P: nat, ps: seq<Page>, cursor: nat)
    requires P <= n && Staged(n, P, ps, cursor) && AnyClosing(ps)
    ensures ps != [] && ps[|ps| - 1].advance && cursor > 0
  {
    var k :| 0 <= k < |ps| && ps[k].advance;
    var last := ps[|ps| - 1];
    assert last.advance;
    assert last in ps && last.start > 0;
  }

  /** Queueing a closing page while another one is pending ends a later sweep with that page alone. */
  lemma SecondClosingLeavesGap(n: nat, P: nat, s: Cron)
    requires 1 <= P <= n && Inv(n, P, s) && s.tick.Some? && AnyClosing(Pending(s))
    ensures var t := Next(n, P, s, TickPush);
      !NoGaps(n, Run(n, P, t, Drain(|Jobs(t)|)).paid)
  {
    var t, u, ps := Next(n, P, s, TickPush), PlannedPage(n, P, s.tick.value, s.cursor), Pending(s);
    assert Jobs(t) == Jobs(s) + [PageJob(u)];
    PagesAppend(Jobs(s), PageJob(u));
    DrainPaysAll(n, P, t);
    ClosingIsLast(n, P, ps, s.cursor);
    SweepAfterClosing(n, s.paid, ps, u);
    assert !PaidIn([u], 0);
  }

  /** Queueing a closing page at a cursor that was reset during the fetch ends a sweep on its first page. */
  lemma ResetCursorLeavesGap(n: nat, P: nat, s: Cron)
    requires 1 <= P <= n && 2 <= n && Inv(n, P, s) && s.tick.Some?
    requires !SafePush(n, P, s) && !AnyClosing(Pending(s))
    ensures var t := Next(n, P, s, TickPush);
      !NoGaps(n, Run(n, P, t, Drain(|Jobs(t)|)).paid)
  {
    var t, u := Next(n, P, s, TickPush), PlannedPage(n, P, s.tick.value, s.cursor);
    assert Jobs(t) == Jobs(s) + [PageJob(u)];
    PagesAppend(Jobs(s), PageJob(u));
    DrainPaysAll(n, P, t);
    assert s.paid + ([] + [u]) == s.paid + [u];
    ResetFacts(n, P, s);
    LoneClosing(n, s.paid, u);
  }

  lemma ResetFacts(n: nat, P: nat, s: Cron)
    requires 1 <= P <= n && 2 <= n && Inv(n, P, s) && s.tick.Some?
    requires !SafePush(n, P, s) && !AnyClosing(Pending(s))
    ensures Pending(s) == [] && OpenSweep(s.paid) == []
    ensures var u := PlannedPage(n, P, s.tick.value, s.cursor);
      u.advance && u.start == 0 && u.size < n
  {
  }

  lemma LoneClosing(n: nat, paid: seq<Page>, u: Page)
    requires OpenSweep(paid) == [] && u.advance && u.start == 0 && u.size < n
    ensures !NoGaps(n, paid + [u])
  {
    assert (paid + [u])[..|paid|] == paid && [] + [u] == [u];
    assert !PaidIn([u], u.size);
  }

  // ---- Main results ----

  lemma InitialInv(n: nat, P: nat)
    ensures Inv(n, P, INITIAL) && SmallInv(n, P, INITIAL)
  {
    assert Jobs(INITIAL) == [];
  }

  /** With only safe pushes, whatever is duplicated, fails or completes in between,
      each clock advance ends a climb from index 0 that paid every node. */
  lemma SafePushesKeepSweepsWhole(n: nat, P: nat, steps: seq<Step>)
    requires 1 <= P && SafeRun(n, P, INITIAL, steps)
    ensures NoGaps(n, Run(n, P, INITIAL, steps).paid)
    ensures Orderly(n, P, Run(n, P, INITIAL, steps).paid)
  {
    InitialInv(n, P);
    if n < P { SmallRunKeeps(n, P, INITIAL, steps); } else { SafeRunKeeps(n, P, INITIAL, steps); }
  }

  /** A push is safe exactly when no safe continuation of it can leave a gap. */
  lemma PushSafeIffNoGapFollows(n: nat, P: nat, steps: seq<Step>)
    requires 1 <= P && SafeRun(n, P, INITIAL, steps) && Run(n, P, INITIAL, steps).tick.Some?
    ensures var s := Run(n, P, INITIAL, steps);
      var t := Next(n, P, s, TickPush);
      SafePush(n, P, s) <==>
      forall more :: SafeRun(n, P, t, more) ==> NoGaps(n, Run(n, P, t, more).paid)
  {
    InitialInv(n, P);
    var s := Run(n, P, INITIAL, steps);
    var t := Next(n, P, s, TickPush);
    if n < P {
      SmallRunKeeps(n, P, INITIAL, steps);
      SmallNextKeeps(n, P, s, TickPush);
      forall more | SafeRun(n, P, t, more) ensures NoGaps(n, Run(n, P, t, more).paid) {
        SmallRunKeeps(n, P, t, more);
      }
      return;
    }
    SafeRunKeeps(n, P, INITIAL, steps);
    if SafePush(n, P, s) {
      SafeNext(n, P, s, TickPush);
      forall more | SafeRun(n, P, t, more) ensures NoGaps(n, Run(n, P, t, more).paid) {
        SafeRunKeeps(n, P, t, more);
      }
    } else {
      DrainPaysAll(n, P, t);
      if AnyClosing(Pending(s)) { SecondClosingLeavesGap(n, P, s); } else { ResetCursorLeavesGap(n, P, s); }
    }
  }

  /** The undisturbed cron: fetch, push, begin, succeed, for the first `k` pages. */
  function FirstPages(k: nat): seq<Step> {
    if k == 0 then [] else FirstPages(k - 1) + [TickFetch, TickPush, Begin, Succeed]
  }

  lemma FourSteps(n: nat, P: nat, s: Cron, a: Step, b: Step, c: Step, d: Step)
    ensures Run(n, P, s, [a, b, c, d]) == Next(n, P, Next(n, P, Next(n, P, Next(n, P, s, a), b), c), d)
  {
    var s1 := Next(n, P, s, a);
    var s2 := Next(n, P, s1, b);
    var s3 := Next(n, P, s2, c);
    assert [a, b, c, d][1..] == [b, c, d] && [b, c, d][1..] == [c, d] && [c, d][1..] == [d] && [d][1..] == [];
    assert Run(n, P, s3, [d]) == Next(n, P, s3, d);
    assert Run(n, P, s2, [c, d]) == Run(n, P, s3, [d]);
    assert Run(n, P, s1, [b, c, d]) == Run(n, P, s2, [c, d]);
  }

  ghost predicate Quiet(n: nat, P: nat, s: Cron) {
    Inv(n, P, s) && s.tick.None? && s.queue == [] && s.running.None?
  }

  lemma OneCycle(n: nat, P: nat, s: Cron)
    requires 1 <= P && Quiet(n, P, s) && s.cursor + P <= n
    ensures var t := Run(n, P, s, [TickFetch, TickPush, Begin, Succeed]);
      Quiet(n, P, t) && t.cursor == s.cursor + P
  {
    FourSteps(n, P, s, TickFetch, TickPush, Begin, Succeed);
    var s1 := Next(n, P, s, TickFetch);
    NextKeeps(n, P, s, TickFetch);
    var s2 := Next(n, P, s1, TickPush);
    NextKeeps(n, P, s1, TickPush);
    var s3 := Next(n, P, s2, Begin);
    NextKeeps(n, P, s2, Begin);
    NextKeeps(n, P, s3, Succeed);
  }

  lemma OneMore(k: nat, P: nat)
    requires k > 0
    ensures k * P == (k - 1) * P + P
  {
  }

  lemma {:induction false} FirstPagesReach(n: nat, P: nat, k: nat)
    requires 1 <= P <= n && k * P <= n
    ensures Quiet(n, P, Run(n, P, INITIAL, FirstPages(k))) && Run(n, P, INITIAL, FirstPages(k)).cursor == k * P
  {
    if k == 0 {
      InitialInv(n, P);
    } else {
      OneMore(k, P);
      FirstPagesReach(n, P, k - 1);
      var s := Run(n, P, INITIAL, FirstPages(k - 1));
      OneCycle(n, P, s);
      RunConcat(n, P, INITIAL, FirstPages(k - 1), [TickFetch, TickPush, Begin, Succeed]);
    }
  }

  /** From a quiet state on the last page, two ticks before the first one's job has run are enough. */
  lemma TwoTicksLeaveGap(n: nat, P: nat, s: Cron) returns (more: seq<Step>)
    requires 1 <= P <= n && Quiet(n, P, s) && s.cursor <= n < s.cursor + P
    ensures !NoGaps(n, Run(n, P, s, more).paid)
  {
    var s3 := ClosingAndTick(n, P, s);
    SecondClosingLeavesGap(n, P, s3);
    var t := Next(n, P, s3, TickPush);
    FourSteps(n, P, s, TickFetch, TickPush, TickFetch, TickPush);
    more := [TickFetch, TickPush, TickFetch, TickPush] + Drain(|Jobs(t)|);
    RunConcat(n, P, s, [TickFetch, TickPush, TickFetch, TickPush], Drain(|Jobs(t)|));
  }

  lemma ClosingAndTick(n: nat, P: nat, s: Cron) returns (s3: Cron)
    requires 1 <= P <= n && Quiet(n, P, s) && s.cursor <= n < s.cursor + P
    ensures s3 == Next(n, P, Next(n, P, Next(n, P, s, TickFetch), TickPush), TickFetch)
    ensures Inv(n, P, s3) && s3.tick.Some? && AnyClosing(Pending(s3))
  {
    var s1 := Next(n, P, s, TickFetch);
    NextKeeps(n, P, s, TickFetch);
    assert Jobs(s1) == [];
    var s2 := Next(n, P, s1, TickPush);
    NextKeeps(n, P, s1, TickPush);
    s3 := Next(n, P, s2, TickFetch);
    NextKeeps(n, P, s2, TickFetch);
    var closing := PlannedPage(n, P, s.cursor, s.cursor);
    assert Jobs(s3) == Jobs(s1) + [PageJob(closing)];
    PagesAppend(Jobs(s1), PageJob(closing));
    assert closing in Pending(s3) && closing.advance;
  }

  /** As written, the cron keeps every sweep whole in every run exactly when all nodes fit below one page. */
  lemma AllRunsWholeIffBelowOnePage(n: nat, P: nat)
    requires 1 <= P
    ensures (forall steps :: NoGaps(n, Run(n, P, INITIAL, steps).paid)) <==> n < P
  {
    if n < P {
      InitialInv(n, P);
      forall steps ensures NoGaps(n, Run(n, P, INITIAL, steps).paid) {
        SmallRunKeeps(n, P, INITIAL, steps);
      }
    } else {
      var steps := RunWithGap(n, P);
    }
  }

  /** Undisturbed up to the last page, and then two ticks in a row. */
  lemma RunWithGap(n: nat, P: nat) returns (steps: seq<Step>)
    requires 1 <= P <= n
    ensures !NoGaps(n, Run(n, P, INITIAL, steps).paid)
  {
    var k := n / P;
    FirstPagesReach(n, P, k);
    var more := TwoTicksLeaveGap(n, P, Run(n, P, INITIAL, FirstPages(k)));
    RunConcat(n, P, INITIAL, FirstPages(k), more);
    steps := FirstPages(k) + more;
  }

  const GAS_DUST_WEI := 50_000_000

  // ---- Waiting for cheap gas at the start of a sweep ----

  /** A tick that reads the gas price, or a cron page that went through and ends the wait. */
  datatype GateEvent = Priced(gasPrice: nat, now: nat) | PageDone

  predicate Affordable(gasPrice: nat, maxGas: nat) {
    gasPrice <= maxGas + GAS_DUST_WEI
  }

  predicate EndsWait(e: GateEvent, maxGas: nat) {
    e.PageDone? || Affordable(e.gasPrice, maxGas)
  }

  /** When the current wait began. */
  function WaitingAfter(waiting: Option<nat>, e: GateEvent, maxGas: nat): Option<nat> {
    if EndsWait(e, maxGas) then None else if waiting.None? then Some(e.now) else waiting
  }

  predicate GateOpens(waiting: Option<nat>, e: GateEvent, maxGas: nat, forceMs: nat)
    requires e.Priced?
  {
    Affordable(e.gasPrice, maxGas) || e.now - WaitingAfter(waiting, e, maxGas).value >= forceMs
  }

  function Waiting(events: seq<GateEvent>, maxGas: nat): Option<nat> {
    if events == [] then None
    else WaitingAfter(Waiting(events[..|events| - 1], maxGas), events[|events| - 1], maxGas)
  }

  /** The first expensive tick of the stretch of expensive ticks that ends with the k-th event. */
  function FirstRefusal(events: seq<GateEvent>, k: nat, maxGas: nat): (m: nat)
    requires k < |events| && !EndsWait(events[k], maxGas)
    ensures m <= k && (m == 0 || EndsWait(events[m - 1], maxGas))
    ensures forall j :: m <= j <= k ==> !EndsWait(events[j], maxGas)
  {
    if k == 0 || EndsWait(events[k - 1], maxGas) then k else FirstRefusal(events, k - 1, maxGas)
  }

  lemma {:induction false} WaitBeginsAtFirstRefusal(events: seq<GateEvent>, k: nat, maxGas: nat)
    requires k < |events| && !EndsWait(events[k], maxGas)
    ensures Waiting(events[..k + 1], maxGas) == Some(events[FirstRefusal(events, k, maxGas)].now)
  {
    assert events[..k + 1][..k] == events[..k];
    if k > 0 {
      assert events[..k][..k - 1] == events[..k - 1];
      if !EndsWait(events[k - 1], maxGas) { WaitBeginsAtFirstRefusal(events, k - 1, maxGas); }
    }
  }

  ghost predicate ClockForward(events: seq<GateEvent>) {
    forall i, j :: 0 <= i <= j < |events| && events[i].Priced? && events[j].Priced? ==> events[i].now <= events[j].now
  }

  predicate OpensAt(events: seq<GateEvent>, k: nat, maxGas: nat, forceMs: nat)
    requires k < |events| && events[k].Priced?
  {
    GateOpens(Waiting(events[..k], maxGas), events[k], maxGas, forceMs)
  }

  /** Over any ticks at the start of sweeps, an expensive tick is let through exactly when `forceMs` have passed
      since the first refusal of its stretch; with a clock that does not go back, all later ones of the stretch are
      let through as well. */
  lemma GateOpensAfterWait(events: seq<GateEvent>, k: nat, maxGas: nat, forceMs: nat)
    requires k < |events| && !EndsWait(events[k], maxGas)
    ensures var m := FirstRefusal(events, k, maxGas);
      && (OpensAt(events, k, maxGas, forceMs) <==> events[k].now >= events[m].now + forceMs)
      && (ClockForward(events) ==>
            forall j :: m <= j <= k && OpensAt(events, j, maxGas, forceMs) ==> OpensAt(events, k, maxGas, forceMs))
  {
    var m := FirstRefusal(events, k, maxGas);
    forall j | m <= j <= k
      ensures OpensAt(events, j, maxGas, forceMs) <==> events[j].now >= events[m].now + forceMs
    {
      OpensIff(events, j, maxGas, forceMs);
      SameStretch(events, j, k, maxGas);
    }
  }

  lemma OpensIff(events: seq<GateEvent>, k: nat, maxGas: nat, forceMs: nat)
    requires k < |events| && !EndsWait(events[k], maxGas)
    ensures OpensAt(events, k, maxGas, forceMs) <==>
      events[k].now >= events[FirstRefusal(events, k, maxGas)].now + forceMs
  {
    WaitBeginsAtFirstRefusal(events, k, maxGas);
    assert events[..k + 1][..k] == events[..k];
  }

  lemma {:induction false} SameStretch(events: seq<GateEvent>, j: nat, k: nat, maxGas: nat)
    requires k < |events| && !EndsWait(events[k], maxGas) && FirstRefusal(events, k, maxGas) <= j <= k
    ensures FirstRefusal(events, j, maxGas) == FirstRefusal(events, k, maxGas)
    decreases k
  {
    if j < k { SameStretch(events, j, k - 1, maxGas); }
  }

  // ---- The module variables and the functions that change them ----

  datatype Outcome = Confirmed | NothingToAirdrop | Reverted

  class GbDepinAirdrop {
    const nodes: nat
    const pageSize: nat
    var gbDepinAirdropAllPool: seq<Job>
    var gbDepinAirdropAllRunning: bool
    var gbDepinCronInFlight: bool
    var gbDepinCronPageStart: nat
    var gbDepinCronGasWaitStartedAt: Option<nat>
    // Local variables of the suspended tick and of the suspended press.
    var fetched: nat
    var current: Option<Job>
    ghost var paid: seq<Page>

    constructor (nodes: nat, pageSize: nat)
      requires pageSize >= 1
      ensures Valid() && State() == INITIAL && gbDepinCronGasWaitStartedAt == None
      ensures this.nodes == nodes && this.pageSize == pageSize
    {
      this.nodes, this.pageSize := nodes, pageSize;
      gbDepinAirdropAllPool, gbDepinAirdropAllRunning, gbDepinCronInFlight := [], false, false;
      gbDepinCronPageStart, gbDepinCronGasWaitStartedAt, fetched, current := 0, None, 0, None;
      paid := [];
    }

    ghost predicate Valid()
      reads this
    {
      gbDepinAirdropAllRunning <==> current.Some?
    }

    ghost function State(): Cron
      reads this
    {
      Cron(gbDepinCronPageStart, if gbDepinCronInFlight then Some(fetched) else None,
           gbDepinAirdropAllPool, current, paid)
    }

    /** In the middle of a sweep the gate is always open; at its start an expensive chain is waited
        out, but for no longer than `forceMs` after the first refusal. */
    method GasGate(gasPrice: nat, maxGas: nat, now: nat, forceMs: nat) returns (run: bool, force: bool)
      modifies this`gbDepinCronGasWaitStartedAt
      ensures gbDepinCronPageStart > 0 ==>
        run && !force && gbDepinCronGasWaitStartedAt == old(gbDepinCronGasWaitStartedAt)
      ensures gbDepinCronPageStart == 0 && gasPrice <= maxGas + 50_000_000 ==>
        run && !force && gbDepinCronGasWaitStartedAt == None
      ensures gbDepinCronPageStart == 0 && gasPrice > maxGas + 50_000_000 ==>
        var since := match old(gbDepinCronGasWaitStartedAt) case None => now case Some(t) => t;
        && gbDepinCronGasWaitStartedAt == Some(since)
        && (run <==> now - since >= forceMs) && (force <==> run)
      ensures gbDepinCronPageStart == 0 ==>
        && gbDepinCronGasWaitStartedAt == WaitingAfter(old(gbDepinCronGasWaitStartedAt), Priced(gasPrice, now), maxGas)
        && run == GateOpens(old(gbDepinCronGasWaitStartedAt), Priced(gasPrice, now), maxGas, forceMs)
    {
      if gbDepinCronPageStart > 0 { return true, false; }
      if gasPrice <= maxGas + GAS_DUST_WEI {
        gbDepinCronGasWaitStartedAt := None;
        return true, false;
      }
      if gbDepinCronGasWaitStartedAt.None? { gbDepinCronGasWaitStartedAt := Some(now); }
      var elapsedMs := now - gbDepinCronGasWaitStartedAt.value;
      if elapsedMs >= forceMs { return true, true; }
      return false, false;
    }

    /** A tick up to the page request: at most one is in flight, and at the start of a sweep the precheck may end it. */
    method CronTickFetch(gateOpen: bool, somethingOwed: bool)
      requires Valid()
      modifies this`gbDepinCronInFlight, this`fetched
      ensures Valid()
      ensures gateOpen && (gbDepinCronPageStart > 0 || somethingOwed) ==>
        State() == Next(nodes, pageSize, old(State()), TickFetch)
      ensures !gateOpen || (gbDepinCronPageStart == 0 && !somethingOwed) ==> State() == old(State())
    {
      if gbDepinCronInFlight { return; }
      gbDepinCronInFlight := true;
      if !gateOpen {
        gbDepinCronInFlight := false;
        return;
      }
      if gbDepinCronPageStart == 0 {
        if !somethingOwed {
          gbDepinCronInFlight := false;
          return;
        }
      }
      fetched := gbDepinCronPageStart;
    }

    /** The tick's continuation: the cursor is read again here, after the await. */
    method CronTickPush(pageLen: nat)
      requires Valid() && gbDepinCronInFlight && pageLen == PageLength(nodes, pageSize, fetched)
      modifies this`gbDepinCronInFlight, this`gbDepinAirdropAllPool
      ensures Valid() && State() == Next(nodes, pageSize, old(State()), TickPush)
    {
      var advanceGlobalClock := pageLen == 0 || pageLen < pageSize;
      var effectiveStart := gbDepinCronPageStart;
      var effectiveSize := if pageLen == 0 then 1 else pageLen;
      gbDepinAirdropAllPool := gbDepinAirdropAllPool +
        [PageJob(Page(effectiveStart, effectiveSize, advanceGlobalClock))];
      gbDepinCronInFlight := false;
    }

    /** The press up to its first await, when a settle wallet is idle. */
    method PressStart()
      requires Valid()
      modifies this`gbDepinAirdropAllRunning, this`gbDepinAirdropAllPool, this`current
      ensures Valid() && State() == Next(nodes, pageSize, old(State()), Begin)
    {
      if gbDepinAirdropAllRunning { return; }
      gbDepinAirdropAllRunning := true;
      if gbDepinAirdropAllPool == [] {
        gbDepinAirdropAllRunning := false;
        return;
      }
      current := Some(gbDepinAirdropAllPool[0]);
      gbDepinAirdropAllPool := gbDepinAirdropAllPool[1..];
    }

    /** The press after the transaction: only a confirmed page moves the cursor. */
    method PressFinish(outcome: Outcome)
      requires Valid() && gbDepinAirdropAllRunning
      modifies this
      ensures Valid()
      ensures State() == Next(nodes, pageSize, old(State()), if outcome.Confirmed? then Succeed else Fail)
      ensures gbDepinCronGasWaitStartedAt
           == if old(current).value.PageJob? && !outcome.Reverted? then None else old(gbDepinCronGasWaitStartedAt)
    {
      var job := current.value;
      if outcome.Confirmed? && job.PageJob? {
        paid := paid + [job.page];
        if job.page.advance {
          gbDepinCronPageStart := 0;
        } else {
          gbDepinCronPageStart := job.page.start + job.page.size;
        }
      }
      if job.PageJob? && !outcome.Reverted? { gbDepinCronGasWaitStartedAt := None; }
      current := None;
      gbDepinAirdropAllRunning := false;
    }
  }
}
