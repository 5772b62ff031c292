/**
 * Merchant cards of POS terminals (src/db.ts): rows of (terminal, card) with an `is_active` flag.
 * Every operation is one transaction. The flags are proved to implement a single `current` card per
 * terminal. Where SQL leaves the order of equal timestamps open, the database's pick is a parameter.
 */
module PosBinding {
  import opened Common

  type Pos = nat
  type Card = nat

  datatype Row = Row(active: bool, updatedAt: Option<int>, txHash: Option<string>, metadata: Option<string>)

  /** The rows of one terminal. */
  type Bindings = map<Card, Row>

  type Table = map<Pos, Bindings>

  function Of(t: Table, pos: Pos): Bindings {
    if pos in t then t[pos] else map[]
  }

  // ---- Ordering ----

  /** `updated_at DESC NULLS LAST`. */
  predicate Later(a: Option<int>, b: Option<int>) {
    a.Some? && (b.None? || a.value > b.value)
  }

  predicate IsLatest(b: Bindings, card: Card) {
    card in b && forall d :: d in b ==> !Later(b[d].updatedAt, b[card].updatedAt)
  }

  /** `ORDER BY is_active DESC, updated_at DESC NULLS LAST LIMIT 1`. */
  predicate IsFirst(b: Bindings, card: Card) {
    card in b && forall d :: d in b ==>
      && (b[d].active ==> b[card].active)
      && (b[d].active == b[card].active ==> !Later(b[d].updatedAt, b[card].updatedAt))
  }

  lemma {:induction false} LatestExists(b: Bindings, cards: set<Card>) returns (card: Card)
    requires cards <= b.Keys && cards != {}
    ensures card in cards && forall d :: d in cards ==> !Later(b[d].updatedAt, b[card].updatedAt)
    decreases |cards|
  {
    card :| card in cards;
    if cards != {card} {
      var best := LatestExists(b, cards - {card});
      if !Later(b[card].updatedAt, b[best].updatedAt) { card := best; }
    }
  }

  // ---- The code ----

  function Deactivate(b: Bindings): Bindings {
    map c | c in b :: b[c].(active := false)
  }

  function Bind(b: Bindings, card: Card, tx: Option<string>, meta: Option<string>, makeActive: bool, now: int):
    Bindings {
    var active := b == map[] || makeActive;
    var b1 := if active then Deactivate(b) else b;
    b1[card := if card in b1
               then Row(active || b1[card].active, Some(now), Coalesce(tx, b1[card].txHash),
                        Coalesce(meta, b1[card].metadata))
               else Row(active, Some(now), tx, meta)]
  }

  function Activate(b: Bindings, card: Card, now: int): Bindings
    requires card in b
  {
    b[card := b[card].(active := true, updatedAt := Some(now))]
  }

  function SetActive(b: Bindings, card: Card, now: int): Bindings {
    if card !in b then b else Activate(Deactivate(b), card, now)
  }

  /** `pick` is the remaining row that the promotion query returns. */
  function Delete(b: Bindings, card: Card, now: int, pick: Card): Bindings {
    if card !in b then b
    else
      var rest := b - {card};
      if b[card].active && pick in rest then Activate(rest, pick, now) else rest
  }

  /** The schema repair on one terminal: with no active row, the picked one becomes active. */
  function Repair(b: Bindings, pick: Card): Bindings {
    if pick in b && !exists c :: c in b && b[c].active then b[pick := b[pick].(active := true)] else b
  }

  datatype Op =
    | BindOp(card: Card, tx: Option<string>, meta: Option<string>, makeActive: bool, now: int)
    | SetActiveOp(card: Card, now: int)
    | DeleteOp(card: Card, now: int, pick: Card)
    | RepairOp(pick: Card)

  function Apply(b: Bindings, op: Op): Bindings {
    match op
    case BindOp(card, tx, meta, makeActive, now) => Bind(b, card, tx, meta, makeActive, now)
    case SetActiveOp(card, now) => SetActive(b, card, now)
    case DeleteOp(card, now, pick) => Delete(b, card, now, pick)
    case RepairOp(pick) => Repair(b, pick)
  }

  /** The pick is one that the query can return. */
  predicate PickAllowed(b: Bindings, op: Op) {
    match op
    case DeleteOp(card, _, pick) =>
      card in b && b[card].active && (exists c :: c in b && c != card) ==> IsLatest(b - {card}, pick)
    case RepairOp(pick) => b != map[] ==> IsFirst(b, pick)
    case _ => true
  }

  datatype Step = Step(pos: Pos, op: Op)

  function Run(t: Table, steps: seq<Step>): Table {
    if steps == [] then t
    else
      var t1, s := Run(t, steps[..|steps| - 1]), steps[|steps| - 1];
      t1[s.pos := Apply(Of(t1, s.pos), s.op)]
  }

  ghost predicate PicksAllowed(t: Table, steps: seq<Step>) {
    steps != [] ==>
      var front, s := steps[..|steps| - 1], steps[|steps| - 1];
      PicksAllowed(t, front) && PickAllowed(Of(Run(t, front), s.pos), s.op)
  }

  // ---- The simple form: one current card ----

  datatype Terminal = Terminal(bound: map<Card, Option<int>>, current: Option<Card>)

  const UNBOUND := Terminal(map[], None)

  function SimpleApply(s: Terminal, op: Op): Terminal {
    match op
    case BindOp(card, _, _, makeActive, now) =>
      Terminal(s.bound[card := Some(now)], if s.current.None? || makeActive then Some(card) else s.current)
    case SetActiveOp(card, now) =>
      if card in s.bound then Terminal(s.bound[card := Some(now)], Some(card)) else s
    case DeleteOp(card, now, pick) =>
      var rest := s.bound - {card};
      if s.current != Some(card) then Terminal(rest, s.current)
      else if rest == map[] then UNBOUND
      else Terminal(rest[pick := Some(now)], Some(pick))
    case RepairOp(_) => s
  }

  function SimpleRun(pos: Pos, steps: seq<Step>): Terminal {
    if steps == [] then UNBOUND
    else
      var s, last := SimpleRun(pos, steps[..|steps| - 1]), steps[|steps| - 1];
      if last.pos == pos then SimpleApply(s, last.op) else s
  }

  /** `card` is active and no other is. */
  ghost predicate SoleActive(b: Bindings, card: Card) {
    forall c :: c in b ==> (b[c].active <==> c == card)
  }

  ghost predicate Refines(b: Bindings, s: Terminal) {
    && b.Keys == s.bound.Keys
    && (forall c :: c in b ==> b[c].updatedAt == s.bound[c])
    && match s.current {
         case None => b == map[]
         case Some(card) => card in b && SoleActive(b, card)
       }
  }

  lemma BindRefines(b: Bindings, s: Terminal, op: Op)
    requires Refines(b, s) && op.BindOp?
    ensures Refines(Apply(b, op), SimpleApply(s, op))
  {
    var active := b == map[] || op.makeActive;
    assert s.current.None? <==> b == map[];
    var b2 := Apply(b, op);
    assert b2.Keys == b.Keys + {op.card};
    assert forall c :: c in b2 && c != op.card ==>
      b2[c].active == (b[c].active && !active) && b2[c].updatedAt == b[c].updatedAt;
  }

  lemma SetActiveRefines(b: Bindings, s: Terminal, op: Op)
    requires Refines(b, s) && op.SetActiveOp?
    ensures Refines(Apply(b, op), SimpleApply(s, op))
  {
  }

  lemma DeleteRefines(b: Bindings, s: Terminal, op: Op)
    requires Refines(b, s) && op.DeleteOp? && PickAllowed(b, op)
    ensures Refines(Apply(b, op), SimpleApply(s, op))
  {
    var rest := b - {op.card};
    assert rest.Keys == (s.bound - {op.card}).Keys;
    if op.card in b && b[op.card].active {
      if c :| c in rest { assert c in b && c != op.card; }
    }
  }

  lemma RepairRefines(b: Bindings, s: Terminal, op: Op)
    requires Refines(b, s) && op.RepairOp?
    ensures Apply(b, op) == b
  {
    if s.current.Some? { assert b[s.current.value].active; }
  }

  /** In every run from an empty table, over any terminals, each terminal's rows implement its current card. */
  lemma {:induction false} FlagsImplementCurrent(steps: seq<Step>, pos: Pos)
    requires PicksAllowed(map[], steps)
    ensures Refines(Of(Run(map[], steps), pos), SimpleRun(pos, steps))
  {
    if steps != [] {
      var front, last := steps[..|steps| - 1], steps[|steps| - 1];
      FlagsImplementCurrent(front, pos);
      if last.pos == pos {
        var b, s := Of(Run(map[], front), pos), SimpleRun(pos, front);
        match last.op
        case BindOp(_, _, _, _, _) => BindRefines(b, s, last.op);
        case SetActiveOp(_, _) => SetActiveRefines(b, s, last.op);
        case DeleteOp(_, _, _) => DeleteRefines(b, s, last.op);
        case RepairOp(_) => RepairRefines(b, s, last.op);
      }
    }
  }

  /** A terminal with a binding has exactly one active card, and the row read back is that one. */
  lemma ReadBackIsCurrent(steps: seq<Step>, pos: Pos, card: Card)
    requires PicksAllowed(map[], steps)
    ensures var b := Of(Run(map[], steps), pos);
      && (b != map[] ==> SimpleRun(pos, steps).current.Some? && SoleActive(b, SimpleRun(pos, steps).current.value))
      && (IsFirst(b, card) <==> SimpleRun(pos, steps).current == Some(card))
  {
    FlagsImplementCurrent(steps, pos);
    var b, s := Of(Run(map[], steps), pos), SimpleRun(pos, steps);
    if s.current.Some? { assert b[s.current.value].active; }
  }

  /** `card` is gone and `pick` is active in its place and read back: no other remaining card was updated after it,
      where a missing time is before all times. */
  ghost predicate Promoted(b: Bindings, after: Bindings, card: Card, pick: Card, now: int) {
    && pick in b && pick != card && after.Keys == b.Keys - {card}
    && IsFirst(after, pick) && SoleActive(after, pick) && after[pick].updatedAt == Some(now)
    && (forall c :: c in b && c != card && c != pick ==> after[c].updatedAt == b[c].updatedAt)
    && forall c :: c in b && c != card ==>
         b[c].updatedAt.None? || (b[pick].updatedAt.Some? && b[c].updatedAt.value <= b[pick].updatedAt.value)
  }

  /** Deleting the active card makes the most recently updated other card the one read back. */
  lemma DeletingActivePromotesLatest(steps: seq<Step>, pos: Pos, card: Card, now: int, pick: Card, other: Card)
    requires PicksAllowed(map[], steps + [Step(pos, DeleteOp(card, now, pick))])
    requires SimpleRun(pos, steps).current == Some(card)
    requires other in Of(Run(map[], steps), pos) && other != card
    ensures Promoted(Of(Run(map[], steps), pos), Of(Run(map[], steps + [Step(pos, DeleteOp(card, now, pick))]), pos),
                     card, pick, now)
  {
    var all := steps + [Step(pos, DeleteOp(card, now, pick))];
    assert all[..|all| - 1] == steps;
    FlagsImplementCurrent(steps, pos);
    DeletionPromotes(Of(Run(map[], steps), pos), card, now, pick, other);
  }

  lemma DeletionPromotes(b: Bindings, card: Card, now: int, pick: Card, other: Card)
    requires card in b && SoleActive(b, card) && other in b && other != card
    requires PickAllowed(b, DeleteOp(card, now, pick))
    ensures Promoted(b, Apply(b, DeleteOp(card, now, pick)), card, pick, now)
  {
    assert b[card].active;
    PickIsLatest(b, card, now, pick, other);
    ActiveCardAfter(b, DeleteOp(card, now, pick), card);
    assert other in Apply(b, DeleteOp(card, now, pick)).Keys;
    SoleIsFirst(Apply(b, DeleteOp(card, now, pick)), pick);
  }

  lemma SoleIsFirst(b: Bindings, card: Card)
    requires card in b && SoleActive(b, card)
    ensures IsFirst(b, card)
  {
    assert b[card].active;
  }

  lemma PickIsLatest(b: Bindings, card: Card, now: int, pick: Card, other: Card)
    requires card in b && b[card].active && other in b && other != card
    requires PickAllowed(b, DeleteOp(card, now, pick))
    ensures pick in b && pick != card
    ensures forall c :: c in b && c != card ==>
      b[c].updatedAt.None? || (b[pick].updatedAt.Some? && b[c].updatedAt.value <= b[pick].updatedAt.value)
  {
    var rest := b - {card};
    assert IsLatest(rest, pick);
    forall c | c in b && c != card ensures !Later(b[c].updatedAt, b[pick].updatedAt) { assert c in rest; }
  }

  /** Binding the first card of a terminal makes it the active one, whatever was asked for. */
  lemma FirstBindIsActive(card: Card, tx: Option<string>, meta: Option<string>, makeActive: bool, now: int)
    ensures Apply(map[], BindOp(card, tx, meta, makeActive, now)) == map[card := Row(true, Some(now), tx, meta)]
  {
  }

  /** With one active card, every operation says which card is active next, and touches only the time stamp of the card
      it makes active or binds: a bind activates its card only when it is asked to, a switch only to a bound card,
      and a deletion passes the flag on only when it takes the active card. */
  lemma ActiveCardAfter(b: Bindings, op: Op, cur: Card)
    requires cur in b && SoleActive(b, cur) && PickAllowed(b, op)
    ensures var u := Apply(b, op);
      match op {
        case BindOp(card, _, _, makeActive, now) =>
          && u.Keys == b.Keys + {card} && u[card].updatedAt == Some(now)
          && SoleActive(u, if makeActive then card else cur)
          && forall c :: c in b && c != card ==> u[c].updatedAt == b[c].updatedAt
        case SetActiveOp(card, now) =>
          && u.Keys == b.Keys
          && (if card in b then SoleActive(u, card) && u[card].updatedAt == Some(now) else u == b)
          && forall c :: c in b && c != card ==> u[c].updatedAt == b[c].updatedAt
        case DeleteOp(card, now, pick) =>
          && u.Keys == b.Keys - {card}
          && (card != cur ==> SoleActive(u, cur) && forall c :: c in u ==> u[c] == b[c])
          && (card == cur && u != map[] ==>
                && pick in u && SoleActive(u, pick) && u[pick].updatedAt == Some(now)
                && forall c :: c in u && c != pick ==> u[c] == b[c])
        case RepairOp(_) => u == b
      }
  {
    assert b[cur].active;
    match op {
      case BindOp(card, _, _, _, _) => assert Apply(b, op).Keys == b.Keys + {card};
      case SetActiveOp(_, _) =>
      case DeleteOp(card, _, pick) =>
        if card == cur {
          if c :| c in b - {card} { assert c in b && c != card; }
        }
      case RepairOp(_) =>
    }
  }

  /** A binding's transaction hash and terminal metadata only ever change by binding that card again with new
      ones: nothing else touches them, and a bind that carries none keeps them. */
  lemma DetailsChangeOnlyByBind(b: Bindings, op: Op, card: Card)
    requires card in b && card in Apply(b, op)
    ensures var tx, meta := Apply(b, op)[card].txHash, Apply(b, op)[card].metadata;
      && (tx != b[card].txHash ==> op.BindOp? && op.card == card && op.tx.Some? && tx == op.tx)
      && (meta != b[card].metadata ==> op.BindOp? && op.card == card && op.meta.Some? && meta == op.meta)
  {
    match op
    case BindOp(_, _, _, _, _) =>
    case SetActiveOp(_, _) =>
    case DeleteOp(_, _, _) =>
    case RepairOp(_) =>
  }

  datatype Details = Details(txHash: Option<string>, metadata: Option<string>)

  /** What the history says about a binding: the last hash and the last metadata that a bind brought since the card
      was bound, `None` when it is not bound. */
  function DetailsOf(steps: seq<Step>, pos: Pos, card: Card): Option<Details> {
    if steps == [] then None
    else
      var before, last := DetailsOf(steps[..|steps| - 1], pos, card), steps[|steps| - 1];
      if last.pos != pos || last.op.RepairOp? || last.op.card != card then before
      else
        match last.op
        case BindOp(_, tx, meta, _, _) =>
          if before.None? then Some(Details(tx, meta))
          else Some(Details(Coalesce(tx, before.value.txHash), Coalesce(meta, before.value.metadata)))
        case DeleteOp(_, _, _) => None
        case _ => before
  }

  /** In every run, whatever the picks, each binding carries the hash and metadata of its history. */
  lemma {:induction false} DetailsFollowHistory(steps: seq<Step>, pos: Pos, card: Card)
    ensures var row := Lookup(Of(Run(map[], steps), pos), card);
      DetailsOf(steps, pos, card) == if row.None? then None else Some(Details(row.value.txHash, row.value.metadata))
  {
    if steps != [] {
      var front, last := steps[..|steps| - 1], steps[|steps| - 1];
      DetailsFollowHistory(front, pos, card);
      var b := Of(Run(map[], front), pos);
      if last.pos == pos && card in b && card in Apply(b, last.op) {
        DetailsChangeOnlyByBind(b, last.op, card);
      }
    }
  }

  // ---- The repair ----

  ghost predicate AtMostOneActive(b: Bindings) {
    forall c, d :: c in b && d in b && b[c].active && b[d].active ==> c == d
  }

  ghost predicate ExactlyOneActive(b: Bindings) {
    exists c :: c in b && SoleActive(b, c)
  }

  /** Whatever the rows were, the repair leaves a bound terminal with exactly one active row exactly when it had at
      most one; with none, the most recently updated row becomes active; and it never changes which cards are bound. */
  lemma RepairIff(b: Bindings, pick: Card)
    requires b != map[] && PickAllowed(b, RepairOp(pick))
    ensures ExactlyOneActive(Repair(b, pick)) <==> AtMostOneActive(b)
    ensures Repair(b, pick).Keys == b.Keys && forall c :: c in b ==> Repair(b, pick)[c].updatedAt == b[c].updatedAt
    ensures (forall c :: c in b ==> !b[c].active) ==>
      && pick in b && SoleActive(Repair(b, pick), pick)
      && forall c :: c in b ==>
           b[c].updatedAt.None? || (b[pick].updatedAt.Some? && b[c].updatedAt.value <= b[pick].updatedAt.value)
  {
    var r := Repair(b, pick);
    if c :| c in b && b[c].active {
      if AtMostOneActive(b) { assert SoleActive(r, c); }
      if ExactlyOneActive(r) {
        var d :| d in r && SoleActive(r, d);
      }
    } else {
      assert SoleActive(r, pick);
    }
  }

  // ---- The operations on the table ----

  class PosTerminalDb {
    var table: Table

    constructor ()
      ensures table == map[]
    {
      table := map[];
    }

    method UpsertPosTerminalAdminCardBinding(pos: Pos, card: Card, tx: Option<string>, meta: Option<string>,
        makeActive: bool, now: int)
      modifies this
      ensures table == old(table)[pos := Bind(Of(old(table), pos), card, tx, meta, makeActive, now)]
    {
      var rows := Of(table, pos);
      var active := if |rows| == 0 then true else makeActive;
      if active {
        rows := map c | c in rows :: rows[c].(active := false);
        assert rows == Deactivate(Of(table, pos));
      }
      if card in rows {
        var r := rows[card];
        rows := rows[card := Row(if active then true else r.active, Some(now),
                                 if tx.Some? then tx else r.txHash, if meta.Some? then meta else r.metadata)];
      } else {
        rows := rows[card := Row(active, Some(now), tx, meta)];
      }
      table := table[pos := rows];
    }

    method SetActivePosTerminalCardBinding(pos: Pos, card: Card, now: int) returns (ok: bool)
      modifies this
      ensures ok <==> card in Of(old(table), pos)
      ensures table == if ok then old(table)[pos := SetActive(Of(old(table), pos), card, now)] else old(table)
    {
      var rows := Of(table, pos);
      if card !in rows { return false; }
      rows := map c | c in rows :: rows[c].(active := false);
      assert rows == Deactivate(Of(table, pos));
      rows := rows[card := rows[card].(active := true, updatedAt := Some(now))];
      table := table[pos := rows];
      ok := true;
    }

    /** `None` is a missing or invalid card address, which is refused. */
    method DeletePosTerminalCardBinding(pos: Pos, cardLoose: Option<Card>, now: int)
      returns (deleted: bool, ghost pick: Card)
      modifies this
      ensures deleted <==> cardLoose.Some? && cardLoose.value in Of(old(table), pos)
      ensures cardLoose.Some? ==> PickAllowed(Of(old(table), pos), DeleteOp(cardLoose.value, now, pick))
      ensures table ==
        if deleted then old(table)[pos := Delete(Of(old(table), pos), cardLoose.value, now, pick)] else old(table)
    {
      pick := 0;
      if cardLoose.None? { return false, pick; }
      var card, rows := cardLoose.value, Of(table, pos);
      if card !in rows { return false, pick; }
      var wasActive := rows[card].active;
      rows := rows - {card};
      if wasActive && |rows| > 0 {
        ghost var someLatest := LatestExists(rows, rows.Keys);
        var picked :| picked in rows.Keys
          && forall d :: d in rows ==> !Later(rows[d].updatedAt, rows[picked].updatedAt);
        rows := rows[picked := rows[picked].(active := true, updatedAt := Some(now))];
        pick := picked;
      }
      table := table[pos := rows];
      deleted := true;
    }

    method GetPosTerminalCardBindingRow(pos: Pos) returns (card: Option<Card>)
      ensures card == None <==> Of(table, pos) == map[]
      ensures card.Some? ==> IsFirst(Of(table, pos), card.value)
      ensures card.Some? ==>
        var rows, first := Of(table, pos), Of(table, pos)[card.value];
        && (first.active || forall c :: c in rows ==> !rows[c].active)
        && forall c :: c in rows && rows[c].active == first.active ==>
             rows[c].updatedAt.None? || (first.updatedAt.Some? && rows[c].updatedAt.value <= first.updatedAt.value)
    {
      var rows := Of(table, pos);
      if |rows| == 0 { return None; }
      var active := map c | c in rows && rows[c].active :: rows[c];
      var candidates := if |active| > 0 then active else rows;
      ghost var someLatest := LatestExists(candidates, candidates.Keys);
      var picked :| picked in candidates.Keys
        && forall d :: d in candidates ==> !Later(candidates[d].updatedAt, candidates[picked].updatedAt);
      assert forall c :: c in rows && rows[c].active ==> c in active && active[c] == rows[c];
      assert forall c :: c in candidates ==> candidates[c] == rows[c];
      card := Some(picked);
    }
  }
}
