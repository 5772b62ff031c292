/**
 * The database mirror of a card's referee registry (src/cardProgramReferrerDb.ts): rows of (card,
 * referee) with a referrer and the last transaction hash, written from chain events, and a chunked
 * backfill over block ranges. Time stamps are not part of the rows.
 */
module ReferrerMirror {
  import opened Common

  /** Addresses are numbers, the zero address is 0. */
  type Address = nat

  /** An address argument as text: missing or empty, blanks only, no address, or an address. `plain` says that the
      text is the usual form, `0x` and 40 digits without blanks around it. */
  datatype Text = Empty | Spaces | Junk | Addr(value: Address, plain: bool)

  /** What the text of a referrer asks for: nothing at all, or a referrer, where `None` clears it. */
  function ReferrerWanted(raw: Text): Option<Option<Address>> {
    match raw
    case Empty => Some(None)
    case Spaces => None
    case Junk => None
    case Addr(a, plain) => Some(if a == 0 && plain then None else Some(a))
  }

  datatype Row = Row(referrer: Option<Address>, txHash: Option<string>)

  datatype Key = Key(card: Address, referee: Address)

  type Table = map<Key, Row>

  /** One statement on the table. */
  datatype Op =
    | Register(key: Key, txHash: Option<string>)
    | Remove(key: Key)
    | SetReferrer(key: Key, referrer: Option<Address>, txHash: Option<string>)

  /** What a statement makes of the row it addresses. */
  function RowAfter(r: Option<Row>, op: Op): Option<Row> {
    match op
    case Register(_, h) => if r.None? then Some(Row(None, h)) else Some(r.value.(txHash := Coalesce(h, r.value.txHash)))
    case Remove(_) => None
    case SetReferrer(_, a, h) => Some(Row(a, if r.None? then h else Coalesce(h, r.value.txHash)))
  }

  function ApplyOp(t: Table, op: Op): Table {
    match RowAfter(Lookup(t, op.key), op)
    case None => t - {op.key}
    case Some(row) => t[op.key := row]
  }

  function ApplyOps(t: Table, ops: seq<Op>): Table {
    if ops == [] then t else ApplyOp(ApplyOps(t, ops[..|ops| - 1]), ops[|ops| - 1])
  }

  // ---- Events ----

  datatype Event =
    | RefereeRegistered(referee: Address)
    | RefereeUnregistered(referee: Address)
    | RefereeReferrerUpdated(referee: Address, referrer: Address)
    | ShareRefereeBound(downline: Address, sharer: Address)
    | Unknown

  datatype Log = Log(address: Address, event: Event, txHash: Option<string>)

  function ReferrerOf(a: Address): Option<Address> {
    if a == 0 then None else Some(a)
  }

  function ShareBindOps(card: Address, downline: Address, sharer: Address, h: Option<string>): seq<Op> {
    [Register(Key(card, sharer), h), SetReferrer(Key(card, downline), ReferrerOf(sharer), h)]
  }

  function EventOps(card: Address, e: Event, h: Option<string>): seq<Op> {
    match e
    case RefereeRegistered(a) => [Register(Key(card, a), h)]
    case RefereeUnregistered(a) => [Remove(Key(card, a))]
    case RefereeReferrerUpdated(a, r) => [SetReferrer(Key(card, a), ReferrerOf(r), h)]
    case ShareRefereeBound(d, s) => ShareBindOps(card, d, s, h)
    case Unknown => []
  }

  /** The statements of one receipt: its logs of the card, all under the receipt's hash. */
  function ReceiptOps(card: Address, logs: seq<Log>, h: Option<string>): seq<Op> {
    if logs == [] then []
    else
      var l := logs[|logs| - 1];
      ReceiptOps(card, logs[..|logs| - 1], h) + if l.address == card then EventOps(card, l.event, h) else []
  }

  /** The statements of a backfill: share binds of the card, each under its own hash. */
  function BackfillOps(card: Address, logs: seq<Log>): seq<Op> {
    if logs == [] then [] else BackfillOps(card, logs[..|logs| - 1]) + ShareOps(card, logs[|logs| - 1])
  }

  function ShareOps(card: Address, l: Log): seq<Op> {
    if l.address == card && l.event.ShareRefereeBound?
    then ShareBindOps(card, l.event.downline, l.event.sharer, l.txHash) else []
  }

  // ---- Applying a log twice ----

  /** What a list of statements does to one row, whatever the row was. */
  datatype Effect = Untouched | Touched(referrer: Option<Option<Address>>, txHash: Option<string>)
    | Fixed(row: Option<Row>)

  function EffectOf(ops: seq<Op>, k: Key): Effect {
    if ops == [] then Untouched
    else
      var before, op := EffectOf(ops[..|ops| - 1], k), ops[|ops| - 1];
      if op.key != k then before
      else if before.Fixed? || op.Remove? then Fixed(RowAfter(if before.Fixed? then before.row else None, op))
      else
        var h := if before.Touched? then Coalesce(op.txHash, before.txHash) else op.txHash;
        Touched(if op.SetReferrer? then Some(op.referrer) else if before.Touched? then before.referrer else None, h)
  }

  function Interpret(e: Effect, r: Option<Row>): Option<Row> {
    match e
    case Untouched => r
    case Fixed(row) => row
    case Touched(a, h) =>
      if r.None? then Some(Row(if a.Some? then a.value else None, h))
      else Some(Row(if a.Some? then a.value else r.value.referrer, Coalesce(h, r.value.txHash)))
  }

  lemma {:induction false} RowsFollowEffect(t: Table, ops: seq<Op>, k: Key)
    ensures Lookup(ApplyOps(t, ops), k) == Interpret(EffectOf(ops, k), Lookup(t, k))
  {
    if ops != [] { RowsFollowEffect(t, ops[..|ops| - 1], k); }
  }

  /** Any list of statements, over any keys, leaves the same table when it is run twice as when it is run once. */
  lemma RunningTwiceIsRunningOnce(t: Table, ops: seq<Op>)
    ensures ApplyOps(ApplyOps(t, ops), ops) == ApplyOps(t, ops)
  {
    var once := ApplyOps(t, ops);
    forall k ensures Lookup(ApplyOps(once, ops), k) == Lookup(once, k) {
      RowsFollowEffect(t, ops, k);
      RowsFollowEffect(once, ops, k);
    }
    MapsEqual(ApplyOps(once, ops), once);
  }

  /** Applying a receipt twice is applying it once, for any mix of events. */
  lemma ReceiptReplay(t: Table, card: Address, logs: seq<Log>, h: Option<string>)
    ensures var ops := ReceiptOps(card, logs, h);
      ApplyOps(ApplyOps(t, ops), ops) == ApplyOps(t, ops)
  {
    RunningTwiceIsRunningOnce(t, ReceiptOps(card, logs, h));
  }

  // ---- What the logs say about one account ----

  /** An event of the card with the hash under which it is written. */
  datatype Entry = Entry(event: Event, txHash: Option<string>)

  /** The card's own logs of a receipt. */
  function CardEntries(card: Address, logs: seq<Log>, h: Option<string>): seq<Entry> {
    if logs == [] then []
    else
      var l := logs[|logs| - 1];
      CardEntries(card, logs[..|logs| - 1], h) + if l.address == card then [Entry(l.event, h)] else []
  }

  /** The card's share binds, each with the hash of its own transaction. */
  function BindEntries(card: Address, logs: seq<Log>): seq<Entry> {
    if logs == [] then []
    else
      var l := logs[|logs| - 1];
      BindEntries(card, logs[..|logs| - 1])
      + if l.address == card && l.event.ShareRefereeBound? then [Entry(l.event, l.txHash)] else []
  }

  predicate Names(e: Event, a: Address) {
    match e
    case RefereeRegistered(x) => x == a
    case RefereeUnregistered(x) => x == a
    case RefereeReferrerUpdated(x, _) => x == a
    case ShareRefereeBound(d, s) => d == a || s == a
    case Unknown => false
  }

  /** There is a row unless the last event that names the account unregisters it. */
  predicate Present(was: bool, es: seq<Entry>, a: Address) {
    if es == [] then was
    else
      var e := es[|es| - 1].event;
      if Names(e, a) then e != RefereeUnregistered(a) else Present(was, es[..|es| - 1], a)
  }

  /** The referrer: that of the last update or bind of the account since it was last unregistered; zero means none. */
  function Uplink(was: Option<Address>, es: seq<Entry>, a: Address): Option<Address> {
    if es == [] then was
    else
      match es[|es| - 1].event
      case RefereeUnregistered(x) => if x == a then None else Uplink(was, es[..|es| - 1], a)
      case RefereeReferrerUpdated(x, r) =>
        if x == a then (if r == 0 then None else Some(r)) else Uplink(was, es[..|es| - 1], a)
      case ShareRefereeBound(d, s) =>
        if d == a then (if s == 0 then None else Some(s)) else Uplink(was, es[..|es| - 1], a)
      case _ => Uplink(was, es[..|es| - 1], a)
  }

  /** The hash: the last one given with an event that names the account since it was last unregistered. */
  function LastHash(was: Option<string>, es: seq<Entry>, a: Address): Option<string> {
    if es == [] then was
    else
      var e := es[|es| - 1];
      if e.event == RefereeUnregistered(a) then None
      else if Names(e.event, a) && e.txHash.Some? then e.txHash
      else LastHash(was, es[..|es| - 1], a)
  }

  /** The row that the events make of the row that was there. */
  function RowFrom(was: Option<Row>, es: seq<Entry>, a: Address): Option<Row> {
    if !Present(was.Some?, es, a) then None
    else
      Some(Row(Uplink(if was.Some? then was.value.referrer else None, es, a),
               LastHash(if was.Some? then was.value.txHash else None, es, a)))
  }

  /** Every account of the card has the row that its own events ask for, and other cards keep all their rows. */
  ghost predicate FollowsEntries(t: Table, u: Table, card: Address, es: seq<Entry>) {
    && (forall a: Address :: Lookup(u, Key(card, a)) == RowFrom(Lookup(t, Key(card, a)), es, a))
    && (forall k: Key :: k.card != card ==> Lookup(u, k) == Lookup(t, k))
  }

  lemma {:induction false} GoneHasNothing(es: seq<Entry>, a: Address)
    requires !Present(false, es, a)
    ensures Uplink(None, es, a) == None && LastHash(None, es, a) == None
  {
    if es != [] && !Names(es[|es| - 1].event, a) { GoneHasNothing(es[..|es| - 1], a); }
  }

  /** Where a row is gone, nothing is left of what it was. */
  lemma {:induction false} AbsentIsBlank(wasRef: Option<Address>, wasHash: Option<string>, es: seq<Entry>, a: Address)
    requires !Present(true, es, a)
    ensures Uplink(wasRef, es, a) == None && LastHash(wasHash, es, a) == None
  {
    if !Names(es[|es| - 1].event, a) { AbsentIsBlank(wasRef, wasHash, es[..|es| - 1], a); }
  }

  /** One event does to an account's row what its statements do. */
  lemma EventRow(t: Table, card: Address, e: Event, h: Option<string>, a: Address)
    ensures Lookup(ApplyOps(t, EventOps(card, e, h)), Key(card, a))
         == RowFrom(Lookup(t, Key(card, a)), [Entry(e, h)], a)
  {
    var was, es := Lookup(t, Key(card, a)), [Entry(e, h)];
    var r, g := if was.Some? then was.value.referrer else None, if was.Some? then was.value.txHash else None;
    OneEntry(was.Some?, r, g, e, h, a);
    FewOps(t, EventOps(card, e, h));
    match e {
      case RefereeRegistered(x) => assert Names(e, a) <==> x == a;
      case RefereeUnregistered(x) => assert Names(e, a) <==> x == a;
      case RefereeReferrerUpdated(x, _) => assert Names(e, a) <==> x == a;
      case ShareRefereeBound(d, s) => assert Names(e, a) <==> d == a || s == a;
      case Unknown =>
    }
  }

  lemma OneEntry(p: bool, r: Option<Address>, g: Option<string>, e: Event, h: Option<string>, a: Address)
    ensures var es := [Entry(e, h)];
      && Present(p, es, a) == (if Names(e, a) then e != RefereeUnregistered(a) else p)
      && LastHash(g, es, a) ==
         (if e == RefereeUnregistered(a) then None else if Names(e, a) then Coalesce(h, g) else g)
      && Uplink(r, es, a) ==
         match e {
           case RefereeUnregistered(x) => if x == a then None else r
           case RefereeReferrerUpdated(x, y) => if x != a then r else if y == 0 then None else Some(y)
           case ShareRefereeBound(d, s) => if d != a then r else if s == 0 then None else Some(s)
           case _ => r
         }
  {
    assert [Entry(e, h)][..0] == [];
  }

  lemma FewOps(t: Table, ops: seq<Op>)
    ensures |ops| == 1 ==> ApplyOps(t, ops) == ApplyOp(t, ops[0])
    ensures |ops| == 2 ==> ApplyOps(t, ops) == ApplyOp(ApplyOp(t, ops[0]), ops[1])
  {
    if |ops| == 1 {
      assert ops[..0] == [];
    } else if |ops| == 2 {
      assert ops[..1] == [ops[0]] && ops[..1][..0] == [];
      assert ApplyOps(t, ops[..1]) == ApplyOp(t, ops[0]);
    }
  }

  lemma EventElsewhere(t: Table, card: Address, e: Event, h: Option<string>, k: Key)
    requires k.card != card
    ensures Lookup(ApplyOps(t, EventOps(card, e, h)), k) == Lookup(t, k)
  {
    FewOps(t, EventOps(card, e, h));
  }

  lemma ScansThen(p: bool, r: Option<Address>, h: Option<string>, es: seq<Entry>, x: Entry, a: Address)
    ensures Present(p, es + [x], a) == Present(Present(p, es, a), [x], a)
    ensures Uplink(r, es + [x], a) == Uplink(Uplink(r, es, a), [x], a)
    ensures LastHash(h, es + [x], a) == LastHash(LastHash(h, es, a), [x], a)
  {
    assert (es + [x])[..|es|] == es && [x][..0] == [];
  }

  /** One more event, taken after the others. */
  lemma RowThen(was: Option<Row>, es: seq<Entry>, x: Entry, a: Address)
    ensures RowFrom(RowFrom(was, es, a), [x], a) == RowFrom(was, es + [x], a)
  {
    ScansThen(was.Some?, if was.Some? then was.value.referrer else None, if was.Some? then was.value.txHash else None,
              es, x, a);
    if !Present(was.Some?, es, a) {
      if was.Some? {
        AbsentIsBlank(was.value.referrer, was.value.txHash, es, a);
      } else {
        GoneHasNothing(es, a);
      }
    }
  }

  lemma EntryAdded(t: Table, u: Table, card: Address, es: seq<Entry>, x: Entry)
    requires FollowsEntries(t, u, card, es)
    ensures FollowsEntries(t, ApplyOps(u, EventOps(card, x.event, x.txHash)), card, es + [x])
  {
    var v := ApplyOps(u, EventOps(card, x.event, x.txHash));
    forall a: Address ensures Lookup(v, Key(card, a)) == RowFrom(Lookup(t, Key(card, a)), es + [x], a) {
      EventRow(u, card, x.event, x.txHash, a);
      RowThen(Lookup(t, Key(card, a)), es, x, a);
    }
    forall k: Key | k.card != card ensures Lookup(v, k) == Lookup(t, k) {
      EventElsewhere(u, card, x.event, x.txHash, k);
    }
  }

  /** After a receipt every row is what the card's logs in it ask for. */
  lemma {:induction false} ReceiptRows(t: Table, card: Address, logs: seq<Log>, h: Option<string>)
    ensures FollowsEntries(t, ApplyOps(t, ReceiptOps(card, logs, h)), card, CardEntries(card, logs, h))
  {
    if logs != [] {
      var front, l := logs[..|logs| - 1], logs[|logs| - 1];
      var ops, es := ReceiptOps(card, front, h), CardEntries(card, front, h);
      ReceiptRows(t, card, front, h);
      if l.address == card {
        ApplyOpsConcat(t, ops, EventOps(card, l.event, h));
        EntryAdded(t, ApplyOps(t, ops), card, es, Entry(l.event, h));
      } else {
        assert ops + [] == ops && es + [] == es;
      }
    }
  }

  /** After the share binds of a list of logs every row is what they ask for, each with its own hash. */
  lemma {:induction false} BindRows(t: Table, card: Address, logs: seq<Log>)
    ensures FollowsEntries(t, ApplyOps(t, BackfillOps(card, logs)), card, BindEntries(card, logs))
    ensures Applied(card, logs) == |BindEntries(card, logs)|
  {
    if logs != [] {
      var front, l := logs[..|logs| - 1], logs[|logs| - 1];
      var ops, es := BackfillOps(card, front), BindEntries(card, front);
      BindRows(t, card, front);
      if l.address == card && l.event.ShareRefereeBound? {
        ApplyOpsConcat(t, ops, EventOps(card, l.event, l.txHash));
        EntryAdded(t, ApplyOps(t, ops), card, es, Entry(l.event, l.txHash));
      } else {
        assert ops + [] == ops && es + [] == es;
      }
    }
  }

  /** An account that no event names keeps its row as it was. */
  lemma {:induction false} UnnamedRowsStay(was: Option<Row>, es: seq<Entry>, a: Address)
    requires forall x :: x in es ==> !Names(x.event, a)
    ensures RowFrom(was, es, a) == was
  {
    if es != [] {
      assert es[|es| - 1] in es && forall x :: x in es[..|es| - 1] ==> x in es;
      UnnamedRowsStay(was, es[..|es| - 1], a);
    }
  }

  lemma {:induction false} ApplyOpsConcat(t: Table, a: seq<Op>, b: seq<Op>)
    ensures ApplyOps(t, a + b) == ApplyOps(ApplyOps(t, a), b)
  {
    if b == [] {
      assert a + b == a;
    } else {
      ApplyOpsConcat(t, a, b[..|b| - 1]);
      assert (a + b)[..|a + b| - 1] == a + b[..|b| - 1];
    }
  }

  /** After a share bind both accounts have rows, the opener's referrer is the sharer, and no third row moved. */
  lemma ShareBindResult(t: Table, card: Address, downline: Address, sharer: Address, h: Option<string>, k: Key)
    ensures var u := ApplyOps(t, ShareBindOps(card, downline, sharer, h));
      && Key(card, sharer) in u && Key(card, downline) in u
      && u[Key(card, downline)].referrer == ReferrerOf(sharer)
      && (sharer != downline && Key(card, sharer) in t ==>
            u[Key(card, sharer)].referrer == t[Key(card, sharer)].referrer)
      && (k != Key(card, sharer) && k != Key(card, downline) ==> Lookup(u, k) == Lookup(t, k))
  {
    var ops := ShareBindOps(card, downline, sharer, h);
    assert ops[..1] == [ops[0]] && ops[..1][..0] == [];
    assert ApplyOps(t, ops[..1]) == ApplyOp(t, ops[0]);
  }

  // ---- The backfill ----

  const CHUNK := 4_500

  /** The provider's logs, by block number. */
  type Chain = seq<seq<Log>>

  function LogsAt(chain: Chain, block: nat): seq<Log> {
    if block < |chain| then chain[block] else []
  }

  /** The logs of the blocks `from..last`, in order, as the provider returns them for the card. */
  function BlockLogs(chain: Chain, from: nat, last: int): seq<Log>
    decreases last - from
  {
    if last < from then [] else LogsAt(chain, from) + BlockLogs(chain, from + 1, last)
  }

  function Min(a: int, b: int): int {
    if a <= b then a else b
  }

  /** One request; when it fails, its chunk is lost. */
  function ChunkLogs(chain: Chain, fails: set<nat>, start: nat, end: int): seq<Log> {
    if start in fails then [] else BlockLogs(chain, start, end)
  }

  /** What the loop reads from `start` on. */
  function ScannedLogs(chain: Chain, fails: set<nat>, start: nat, last: int): seq<Log>
    decreases last - start
  {
    if last < start then []
    else ChunkLogs(chain, fails, start, Min(last, start + CHUNK - 1)) + ScannedLogs(chain, fails, start + CHUNK, last)
  }

  lemma {:induction false} BlockLogsSplit(chain: Chain, from: nat, mid: int, last: int)
    requires from - 1 <= mid <= last
    ensures BlockLogs(chain, from, last) == BlockLogs(chain, from, mid) + BlockLogs(chain, mid + 1, last)
    decreases mid - from
  {
    if from <= mid {
      BlockLogsSplit(chain, from + 1, mid, last);
      Regroup(LogsAt(chain, from), BlockLogs(chain, from + 1, mid), BlockLogs(chain, mid + 1, last));
    } else {
      NothingRead(BlockLogs(chain, from, last));
    }
  }

  /** With no failing request, the chunks are the whole range: each block once, in order. */
  lemma {:induction false} ChunksCoverRange(chain: Chain, fails: set<nat>, start: nat, last: int)
    requires forall b :: start <= b <= last ==> b !in fails
    ensures ScannedLogs(chain, fails, start, last) == BlockLogs(chain, start, last)
    decreases last - start
  {
    if start <= last {
      var end := Min(last, start + CHUNK - 1);
      ChunksCoverRange(chain, fails, start + CHUNK, last);
      BlockLogsSplit(chain, start, end, last);
      assert BlockLogs(chain, end + 1, last) == BlockLogs(chain, start + CHUNK, last);
    }
  }

  /** The blocks from `b` on, without those whose request failed: requests are for 4500 blocks each, counted from
      the first block. */
  function Answered(chain: Chain, fails: set<nat>, from: nat, b: nat, last: int): seq<Log>
    requires from <= b
    decreases last - b
  {
    if last < b then []
    else
      (if from + 4_500 * ((b - from) / 4_500) in fails then [] else LogsAt(chain, b))
      + Answered(chain, fails, from, b + 1, last)
  }

  /** Within one request. */
  lemma {:induction false} AnsweredChunk(chain: Chain, fails: set<nat>, from: nat, k: nat, b: nat, end: int, last: int)
    requires from + 4_500 * k <= b <= end + 1 <= from + 4_500 * k + 4_500 && end <= last
    ensures Answered(chain, fails, from, b, last)
         == (if from + 4_500 * k in fails then [] else BlockLogs(chain, b, end))
            + Answered(chain, fails, from, end + 1, last)
    decreases end - b
  {
    var rest := Answered(chain, fails, from, end + 1, last);
    if b <= end {
      assert (b - from) / 4_500 == k;
      AnsweredChunk(chain, fails, from, k, b + 1, end, last);
      if from + 4_500 * k !in fails {
        Regroup(LogsAt(chain, b), BlockLogs(chain, b + 1, end), rest);
      } else {
        NothingRead(rest);
      }
    } else {
      NothingRead(rest);
    }
  }

  lemma OneRequest(chain: Chain, fails: set<nat>, from: nat, k: nat, start: nat, last: int)
    requires start == from + 4_500 * k && start <= last
    ensures Answered(chain, fails, from, start, last)
         == ChunkLogs(chain, fails, start, Min(last, start + 4_499)) + Answered(chain, fails, from, start + 4_500, last)
  {
    var end := Min(last, start + 4_499);
    AnsweredChunk(chain, fails, from, k, start, end, last);
    if end == last { assert Answered(chain, fails, from, end + 1, last) == []; }
  }

  lemma ScannedStep(chain: Chain, fails: set<nat>, start: nat, last: int)
    requires start <= last
    ensures ScannedLogs(chain, fails, start, last)
         == ChunkLogs(chain, fails, start, Min(last, start + 4_499)) + ScannedLogs(chain, fails, start + 4_500, last)
  {
  }

  lemma {:induction false} ScannedFromChunk(chain: Chain, fails: set<nat>, from: nat, k: nat, start: nat, last: int)
    requires start == from + 4_500 * k
    ensures ScannedLogs(chain, fails, start, last) == Answered(chain, fails, from, start, last)
    decreases last - start
  {
    if start <= last {
      OneRequest(chain, fails, from, k, start, last);
      ScannedStep(chain, fails, start, last);
      ScannedFromChunk(chain, fails, from, k + 1, start + 4_500, last);
    }
  }

  /** Whatever requests fail, the logs read are those of all other blocks of the range, each once and in order. */
  lemma FailedChunksAreSkipped(chain: Chain, fails: set<nat>, from: nat, last: int)
    ensures ScannedLogs(chain, fails, from, last) == Answered(chain, fails, from, from, last)
  {
    ScannedFromChunk(chain, fails, from, 0, from, last);
  }

  /** The last block that a call scans: never before the first. */
  function LastBlock(from: nat, tip: int): nat {
    if tip > from then tip else from
  }

  function Backfilled(t: Table, card: Address, chain: Chain, fails: set<nat>, from: nat, tip: int): Table {
    ApplyOps(t, BackfillOps(card, ScannedLogs(chain, fails, from, LastBlock(from, tip))))
  }

  lemma {:induction false} BackfillOpsConcat(card: Address, a: seq<Log>, b: seq<Log>)
    ensures BackfillOps(card, a + b) == BackfillOps(card, a) + BackfillOps(card, b)
  {
    if b == [] {
      assert a + b == a && BackfillOps(card, a) + [] == BackfillOps(card, a);
    } else {
      var front, all := b[..|b| - 1], a + b;
      BackfillOpsConcat(card, a, front);
      assert all[..|all| - 1] == a + front && all[|all| - 1] == b[|b| - 1];
      OpsAssoc(BackfillOps(card, a), BackfillOps(card, front), ShareOps(card, b[|b| - 1]));
    }
  }

  lemma OpsAssoc(a: seq<Op>, b: seq<Op>, c: seq<Op>)
    ensures a + b + c == a + (b + c)
  {
  }

  predicate NoFailure(fails: set<nat>, from: nat, last: nat) {
    forall b :: from <= b <= last ==> b !in fails
  }

  lemma WholeRange(t: Table, card: Address, chain: Chain, fails: set<nat>, from: nat, tip: nat)
    requires from <= tip && NoFailure(fails, from, tip)
    ensures Backfilled(t, card, chain, fails, from, tip) == ApplyOps(t, BackfillOps(card, BlockLogs(chain, from, tip)))
  {
    ChunksCoverRange(chain, fails, from, tip);
  }

  lemma OneAfterTheOther(t: Table, card: Address, a: seq<Log>, b: seq<Log>)
    ensures ApplyOps(t, BackfillOps(card, a + b)) == ApplyOps(ApplyOps(t, BackfillOps(card, a)), BackfillOps(card, b))
  {
    BackfillOpsConcat(card, a, b);
    ApplyOpsConcat(t, BackfillOps(card, a), BackfillOps(card, b));
  }

  /** Splitting a range at any inner point gives the same table. */
  lemma SplitAnywhere(t: Table, card: Address, chain: Chain, fails: set<nat>, from: nat, mid: nat, tip: nat)
    requires from <= mid < tip && NoFailure(fails, from, tip)
    ensures Backfilled(Backfilled(t, card, chain, fails, from, mid), card, chain, fails, mid + 1, tip)
         == Backfilled(t, card, chain, fails, from, tip)
  {
    WholeRange(t, card, chain, fails, from, tip);
    WholeRange(t, card, chain, fails, from, mid);
    WholeRange(Backfilled(t, card, chain, fails, from, mid), card, chain, fails, mid + 1, tip);
    BlockLogsSplit(chain, from, mid, tip);
    OneAfterTheOther(t, card, BlockLogs(chain, from, mid), BlockLogs(chain, mid + 1, tip));
  }

  /** Backfilling up to `mid` and then from the next block gives the table of one backfill. */
  predicate SplitAgrees(t: Table, card: Address, chain: Chain, fails: set<nat>, from: nat, mid: nat, tip: nat) {
    Backfilled(Backfilled(t, card, chain, fails, from, mid), card, chain, fails, mid + 1, tip)
    == Backfilled(t, card, chain, fails, from, tip)
  }

  /** A split of a range is harmless, whatever the table, the card and the logs, exactly when it leaves the second
      call a block of its own: a split at the last block makes the second call scan the block behind the range. */
  lemma SplitHarmlessIffInside(from: nat, mid: nat, tip: nat, fails: set<nat>)
    requires from <= mid <= tip && NoFailure(fails, from, tip + 1)
    ensures (forall t, card, chain :: SplitAgrees(t, card, chain, fails, from, mid, tip)) <==> mid < tip
  {
    if mid < tip {
      forall t, card, chain ensures SplitAgrees(t, card, chain, fails, from, mid, tip) {
        SplitAnywhere(t, card, chain, fails, from, mid, tip);
      }
    } else {
      var chain := SplitAtEndDiffers(from, tip, fails);
    }
  }

  lemma SplitAtEndDiffers(from: nat, tip: nat, fails: set<nat>) returns (chain: Chain)
    requires from <= tip && NoFailure(fails, from, tip + 1)
    ensures !SplitAgrees(map[], 1, chain, fails, from, tip, tip)
  {
    chain := LateBind(tip);
    NothingInRange(chain, fails, from, tip);
    BindBehindRange(chain, fails, tip);
  }

  /** No logs up to `tip`, and one share bind in the block behind it. */
  function LateBind(tip: nat): Chain {
    seq(tip + 1, i => []) + [[Log(1, ShareRefereeBound(2, 3), None)]]
  }

  lemma NothingInRange(chain: Chain, fails: set<nat>, from: nat, tip: nat)
    requires chain == LateBind(tip) && from <= tip && NoFailure(fails, from, tip)
    ensures Backfilled(map[], 1, chain, fails, from, tip) == map[]
  {
    SilentBlocks(chain, from, tip);
    WholeRange(map[], 1, chain, fails, from, tip);
  }

  lemma BindBehindRange(chain: Chain, fails: set<nat>, tip: nat)
    requires chain == LateBind(tip) && tip + 1 !in fails
    ensures Key(1, 2) in Backfilled(map[], 1, chain, fails, tip + 1, tip)
  {
    BackwardRangeScansOneBlock(chain, fails, tip + 1, tip);
    LateBindAt(tip);
    OneShareBind(Log(1, ShareRefereeBound(2, 3), None));
  }

  lemma LateBindAt(tip: nat)
    ensures LogsAt(LateBind(tip), tip + 1) == [Log(1, ShareRefereeBound(2, 3), None)]
  {
  }

  lemma {:induction false} SilentBlocks(chain: Chain, from: nat, last: int)
    requires forall b :: from <= b <= last ==> LogsAt(chain, b) == []
    ensures BlockLogs(chain, from, last) == []
    decreases last - from
  {
    if from <= last { SilentBlocks(chain, from + 1, last); }
  }

  lemma OneShareBind(log: Log)
    requires log == Log(1, ShareRefereeBound(2, 3), None)
    ensures Key(1, 2) in ApplyOps(map[], BackfillOps(1, [log]))
  {
    var ops := ShareBindOps(1, 2, 3, None);
    assert [log][..0] == [] && [] + ops == ops;
    assert BackfillOps(1, [log]) == ops;
    ShareBindResult(map[], 1, 2, 3, None, Key(1, 2));
  }

  /** A range given backwards is not empty: its first block is scanned. */
  lemma BackwardRangeScansOneBlock(chain: Chain, fails: set<nat>, from: nat, tip: int)
    requires tip < from && from !in fails
    ensures ScannedLogs(chain, fails, from, LastBlock(from, tip)) == LogsAt(chain, from)
  {
    ChunksCoverRange(chain, fails, from, from);
    assert BlockLogs(chain, from + 1, from) == [];
    assert LogsAt(chain, from) + [] == LogsAt(chain, from);
  }

  /** Backfilling a range again changes nothing. */
  lemma BackfillReplay(t: Table, card: Address, chain: Chain, fails: set<nat>, from: nat, tip: int)
    ensures var once := Backfilled(t, card, chain, fails, from, tip);
      Backfilled(once, card, chain, fails, from, tip) == once
  {
    RunningTwiceIsRunningOnce(t, BackfillOps(card, ScannedLogs(chain, fails, from, LastBlock(from, tip))));
  }

  // ---- The code on the table ----

  function Applied(card: Address, logs: seq<Log>): nat {
    if logs == [] then 0
    else
      var l := logs[|logs| - 1];
      Applied(card, logs[..|logs| - 1]) + if l.address == card && l.event.ShareRefereeBound? then 1 else 0
  }

  lemma {:induction false} AppliedConcat(card: Address, a: seq<Log>, b: seq<Log>)
    ensures Applied(card, a + b) == Applied(card, a) + Applied(card, b)
  {
    if b == [] {
      assert a + b == a;
    } else {
      AppliedConcat(card, a, b[..|b| - 1]);
      assert (a + b)[..|a + b| - 1] == a + b[..|b| - 1];
    }
  }

  class CardProgramReferrerDb {
    var table: Table

    constructor ()
      ensures table == map[]
    {
      table := map[];
    }

    method UpsertCardProgramRefereeRegistered(card: Address, referee: Text, txHash: Option<string>)
      modifies this
      ensures table ==
        if referee.Addr? then ApplyOp(old(table), Register(Key(card, referee.value), txHash)) else old(table)
    {
      if !referee.Addr? { return; }
      var k := Key(card, referee.value);
      if k in table {
        table := table[k := table[k].(txHash := if txHash.Some? then txHash else table[k].txHash)];
      } else {
        table := table[k := Row(None, txHash)];
      }
    }

    method RemoveCardProgramReferee(card: Address, referee: Text)
      modifies this
      ensures table == if referee.Addr? then ApplyOp(old(table), Remove(Key(card, referee.value))) else old(table)
    {
      if !referee.Addr? { return; }
      table := table - {Key(card, referee.value)};
    }

    method UpdateCardProgramRefereeReferrer(card: Address, referee: Text, referrerRaw: Text, txHash: Option<string>)
      modifies this
      ensures table == if !referee.Addr? || ReferrerWanted(referrerRaw).None? then old(table)
        else ApplyOp(old(table), SetReferrer(Key(card, referee.value), ReferrerWanted(referrerRaw).value, txHash))
      ensures !referee.Addr? || referrerRaw.Spaces? || referrerRaw.Junk? ==> table == old(table)
      ensures referee.Addr? && (referrerRaw.Empty? || referrerRaw == Addr(0, true)) ==>
        Key(card, referee.value) in table && table[Key(card, referee.value)].referrer == None
      ensures referee.Addr? && referrerRaw.Addr? && referrerRaw != Addr(0, true) ==>
        Key(card, referee.value) in table && table[Key(card, referee.value)].referrer == Some(referrerRaw.value)
    {
      if !referee.Addr? { return; }
      var referrer := if referrerRaw.Empty? || referrerRaw.Spaces? || referrerRaw == Addr(0, true) then None
                      else if referrerRaw.Addr? then Some(referrerRaw.value) else None;
      if !referrerRaw.Empty? && referrerRaw != Addr(0, true) && referrer.None? { return; }
      var k := Key(card, referee.value);
      var h := if k !in table || txHash.Some? then txHash else table[k].txHash;
      table := table[k := Row(referrer, h)];
    }

    method ApplyShareRefereeBoundToDb(card: Address, downline: Address, sharer: Address, txHash: Option<string>)
      modifies this
      ensures table == ApplyOps(old(table), ShareBindOps(card, downline, sharer, txHash))
    {
      ghost var ops := ShareBindOps(card, downline, sharer, txHash);
      assert ops[..1] == [ops[0]] && ops[..1][..0] == [];
      UpsertCardProgramRefereeRegistered(card, Addr(sharer, true), txHash);
      assert table == ApplyOps(old(table), ops[..1]);
      UpdateCardProgramRefereeReferrer(card, Addr(downline, true), Addr(sharer, true), txHash);
    }

    method SyncCardProgramReferrerEventsFromReceipt(card: Address, logs: seq<Log>, txHash: Option<string>)
      modifies this
      ensures table == ApplyOps(old(table), ReceiptOps(card, logs, txHash))
      ensures FollowsEntries(old(table), table, card, CardEntries(card, logs, txHash))
    {
      ReceiptRows(table, card, logs, txHash);
      for i := 0 to |logs|
        invariant table == ApplyOps(old(table), ReceiptOps(card, logs[..i], txHash))
      {
        var log := logs[i];
        assert logs[..i + 1][..i] == logs[..i];
        ghost var before := ReceiptOps(card, logs[..i], txHash);
        ApplyOpsConcat(old(table), before, if log.address == card then EventOps(card, log.event, txHash) else []);
        if log.address != card {
          assert before + [] == before;
          continue;
        }
        ApplyEvent(card, log.event, txHash);
      }
      assert logs[..|logs|] == logs;
    }

    method ApplyEvent(card: Address, event: Event, txHash: Option<string>)
      modifies this
      ensures table == ApplyOps(old(table), EventOps(card, event, txHash))
    {
      ghost var ops := EventOps(card, event, txHash);
      assert |ops| == 1 ==> ops[..0] == [] && ApplyOps(old(table), ops) == ApplyOp(old(table), ops[0]);
      match event
      case RefereeRegistered(a) => UpsertCardProgramRefereeRegistered(card, Addr(a, true), txHash);
      case RefereeUnregistered(a) => RemoveCardProgramReferee(card, Addr(a, true));
      case RefereeReferrerUpdated(a, r) => UpdateCardProgramRefereeReferrer(card, Addr(a, true), Addr(r, true), txHash);
      case ShareRefereeBound(d, s) => ApplyShareRefereeBoundToDb(card, d, s, txHash);
      case Unknown =>
    }

    method ApplyShareLogs(card: Address, logs: seq<Log>) returns (applied: nat)
      modifies this
      ensures table == ApplyOps(old(table), BackfillOps(card, logs)) && applied == Applied(card, logs)
    {
      applied := 0;
      for i := 0 to |logs|
        invariant table == ApplyOps(old(table), BackfillOps(card, logs[..i])) && applied == Applied(card, logs[..i])
      {
        var log := logs[i];
        assert logs[..i + 1][..i] == logs[..i];
        ghost var before := BackfillOps(card, logs[..i]);
        if log.address != card || !log.event.ShareRefereeBound? {
          assert before + [] == before;
          continue;
        }
        ApplyOpsConcat(old(table), before, ShareBindOps(card, log.event.downline, log.event.sharer, log.txHash));
        ApplyShareRefereeBoundToDb(card, log.event.downline, log.event.sharer, log.txHash);
        applied := applied + 1;
      }
      assert logs[..|logs|] == logs;
    }

    /** One request of the backfill and the logs it returned. */
    method BackfillChunk(card: Address, chain: Chain, fails: set<nat>, start: nat, end: int)
      returns (scanned: nat, applied: nat)
      modifies this
      ensures var logs := ChunkLogs(chain, fails, start, end);
        table == ApplyOps(old(table), BackfillOps(card, logs)) && scanned == |logs| && applied == Applied(card, logs)
    {
      if start in fails { return 0, 0; }
      var logs := BlockLogs(chain, start, end);
      applied := ApplyShareLogs(card, logs);
      scanned := |logs|;
    }

    /** `fromBlock` and `tip` are the rounded block numbers; `fails` says which requests throw. */
    method BackfillCardProgramShareRefereeBindsFromLogs(card: Address, chain: Chain, fails: set<nat>,
        fromBlock: int, tip: int) returns (scanned: nat, applied: nat)
      modifies this
      ensures var from := if fromBlock > 0 then fromBlock else 0;
        Through(old(table), card, ScannedLogs(chain, fails, from, LastBlock(from, tip)), table, scanned, applied)
      ensures var from := if fromBlock > 0 then fromBlock else 0;
        var binds := BindEntries(card, ScannedLogs(chain, fails, from, LastBlock(from, tip)));
        FollowsEntries(old(table), table, card, binds) && applied == |binds|
    {
      var from: nat := if fromBlock > 0 then fromBlock else 0;
      var last := LastBlock(from, tip);
      var start := from;
      scanned, applied := 0, 0;
      ghost var done: seq<Log> := [];
      ghost var all := ScannedLogs(chain, fails, from, last);
      ghost var todo := all;
      NothingRead(all);
      while start <= last
        invariant done + todo == all && todo == ScannedLogs(chain, fails, start, last)
        invariant Through(old(table), card, done, table, scanned, applied)
        decreases last + CHUNK - start
      {
        var end := Min(last, start + CHUNK - 1);
        ghost var logs := ChunkLogs(chain, fails, start, end);
        ChunkDone(old(table), card, done, table, scanned, applied, logs);
        todo := ScannedLogs(chain, fails, start + CHUNK, last);
        Regroup(done, logs, todo);
        var n, m := BackfillChunk(card, chain, fails, start, end);
        scanned, applied, done, start := scanned + n, applied + m, done + logs, start + CHUNK;
      }
      assert done + [] == done;
      BindRows(old(table), card, done);
    }
  }

  /** Table and counters after the logs `done`. */
  ghost predicate Through(t: Table, card: Address, done: seq<Log>, now: Table, scanned: nat, applied: nat) {
    now == ApplyOps(t, BackfillOps(card, done)) && scanned == |done| && applied == Applied(card, done)
  }

  lemma ChunkDone(t: Table, card: Address, done: seq<Log>, now: Table, scanned: nat, applied: nat, logs: seq<Log>)
    requires Through(t, card, done, now, scanned, applied)
    ensures Through(t, card, done + logs, ApplyOps(now, BackfillOps(card, logs)),
                    scanned + |logs|, applied + Applied(card, logs))
  {
    OneAfterTheOther(t, card, done, logs);
    AppliedConcat(card, done, logs);
  }

  lemma NothingRead(rest: seq<Log>)
    ensures [] + rest == rest
  {
  }

  lemma Regroup(a: seq<Log>, b: seq<Log>, c: seq<Log>)
    ensures a + (b + c) == a + b + c
  {
  }
}
