/**
 * Replay protection of SUN taps (src/BeamioSun.ts and the counter table of src/db.ts): a tap is
 * accepted when its counter is above the stored one, or equal to it less than two minutes after it
 * was stored; an accepted tap is stored. Each verify-and-persist is one step.
 */
module SunCounter {
  import opened Common

  const SAME_TAP_GRACE_MS := 120_000

  datatype Row = Row(counter: nat, updatedAt: int)

  type Table = map<string, Row>

  /** `now` is the clock at the freshness test, `storedAt` the clock when the row is written.
      `tagCheck` is the answer of the optional tag test. */
  datatype Tap = Tap(uid: string, counter: nat, macValid: bool, tagCheck: Option<bool>, now: int, storedAt: int)

  predicate CounterFresh(last: Option<Row>, tap: Tap) {
    match last
    case None => true
    case Some(row) =>
      || tap.counter > row.counter
      || (tap.counter == row.counter && tap.now - row.updatedAt < SAME_TAP_GRACE_MS)
  }

  predicate Accepts(t: Table, tap: Tap) {
    tap.macValid && CounterFresh(Lookup(t, tap.uid), tap) && tap.tagCheck != Some(false)
  }

  function After(t: Table, tap: Tap): Table {
    if Accepts(t, tap) then t[tap.uid := Row(tap.counter, tap.storedAt)] else t
  }

  class SunCounterStore {
    var rows: Table

    constructor ()
      ensures rows == map[]
    {
      rows := map[];
    }

    method VerifyAndPersist(tap: Tap) returns (valid: bool)
      modifies this
      ensures valid == Accepts(old(rows), tap)
      ensures rows == After(old(rows), tap)
    {
      var lastCounterVal: int := -1;
      var recently := false;
      if tap.uid in rows {
        lastCounterVal := rows[tap.uid].counter;
        recently := tap.counter == lastCounterVal && tap.now - rows[tap.uid].updatedAt < SAME_TAP_GRACE_MS;
      }
      valid := tap.macValid && (tap.uid !in rows || tap.counter > lastCounterVal || recently);
      if !valid { return; }
      if tap.tagCheck == Some(false) { return false; }
      rows := rows[tap.uid := Row(tap.counter, tap.storedAt)];
    }
  }

  // ---- Runs ----

  /** The table after a sequence of taps, from an empty one. */
  function Run(taps: seq<Tap>): Table {
    if taps == [] then map[] else After(Run(taps[..|taps| - 1]), taps[|taps| - 1])
  }

  predicate AcceptedAt(taps: seq<Tap>, i: nat)
    requires i < |taps|
  {
    Accepts(Run(taps[..i]), taps[i])
  }

  ghost predicate MonotoneClock(taps: seq<Tap>) {
    && (forall i :: 0 <= i < |taps| ==> taps[i].now <= taps[i].storedAt)
    && (forall i, j :: 0 <= i < j < |taps| ==> taps[i].storedAt <= taps[j].now)
  }

  lemma RunStep(taps: seq<Tap>, i: nat)
    requires i < |taps|
    ensures Run(taps[..i + 1]) == After(Run(taps[..i]), taps[i])
  {
    assert taps[..i + 1][..i] == taps[..i];
  }

  /** The last tap of `uid` accepted among the first `i`. */
  function LastAccepted(taps: seq<Tap>, i: nat, uid: string): (k: Option<nat>)
    requires i <= |taps|
    ensures k.Some? ==> k.value < i && taps[k.value].uid == uid && AcceptedAt(taps, k.value)
  {
    if i == 0 then None
    else if taps[i - 1].uid == uid && AcceptedAt(taps, i - 1) then Some(i - 1)
    else LastAccepted(taps, i - 1, uid)
  }

  /** The table holds, for each uid, its last accepted tap and nothing else. */
  lemma {:induction false} TableHoldsLastAccepted(taps: seq<Tap>, i: nat, uid: string)
    requires i <= |taps|
    ensures Lookup(Run(taps[..i]), uid) ==
      match LastAccepted(taps, i, uid) {
        case None => None case Some(k) => Some(Row(taps[k].counter, taps[k].storedAt)) }
  {
    if i > 0 {
      RunStep(taps, i - 1);
      TableHoldsLastAccepted(taps, i - 1, uid);
    }
  }

  /** Acceptance in terms of the history alone: every condition, and no other, is needed. */
  lemma AcceptedIff(taps: seq<Tap>, j: nat)
    requires j < |taps|
    ensures AcceptedAt(taps, j) <==>
      && taps[j].macValid && taps[j].tagCheck != Some(false)
      && match LastAccepted(taps, j, taps[j].uid) {
           case None => true
           case Some(k) =>
             || taps[j].counter > taps[k].counter
             || (taps[j].counter == taps[k].counter && taps[j].now < taps[k].storedAt + 120_000)
         }
  {
    TableHoldsLastAccepted(taps, j, taps[j].uid);
  }

  /** A uid's stored counter and time of storing never go back, and the row never disappears. */
  lemma {:induction false} CounterNeverDecreases(taps: seq<Tap>, i: nat, j: nat, uid: string)
    requires i <= j <= |taps| && uid in Run(taps[..i])
    ensures uid in Run(taps[..j]) && Run(taps[..i])[uid].counter <= Run(taps[..j])[uid].counter
    decreases j
  {
    if i < j {
      CounterNeverDecreases(taps, i, j - 1, uid);
      RunStep(taps, j - 1);
    }
  }

  /** A tap accepted later never has a counter below one stored before. */
  lemma SupersededNeverAccepted(taps: seq<Tap>, i: nat, j: nat)
    requires i <= j < |taps| && AcceptedAt(taps, j) && taps[j].uid in Run(taps[..i])
    ensures taps[j].counter >= Run(taps[..i])[taps[j].uid].counter
  {
    CounterNeverDecreases(taps, i, j, taps[j].uid);
  }

  /** Of two accepted taps of one uid, the later has the larger counter, or the same one; in that case a
      tap with that counter was accepted and stored less than two minutes before it. */
  lemma RepeatsAreRecent(taps: seq<Tap>, i: nat, j: nat) returns (k: nat)
    requires MonotoneClock(taps) && i < j < |taps|
    requires taps[i].uid == taps[j].uid && AcceptedAt(taps, i) && AcceptedAt(taps, j)
    ensures taps[i].counter <= taps[j].counter
    ensures taps[i].counter == taps[j].counter ==>
      && i <= k < j && taps[k].uid == taps[j].uid && AcceptedAt(taps, k) && taps[k].counter == taps[j].counter
      && taps[k].storedAt <= taps[j].now < taps[k].storedAt + 120_000
  {
    var uid := taps[j].uid;
    RunStep(taps, i);
    CounterNeverDecreases(taps, i + 1, j, uid);
    LastAcceptedNotBefore(taps, i, j, uid);
    TableHoldsLastAccepted(taps, j, uid);
    k := LastAccepted(taps, j, uid).value;
  }

  lemma {:induction false} LastAcceptedNotBefore(taps: seq<Tap>, i: nat, j: nat, uid: string)
    requires i < j <= |taps| && taps[i].uid == uid && AcceptedAt(taps, i)
    ensures LastAccepted(taps, j, uid).Some? && i <= LastAccepted(taps, j, uid).value
    decreases j
  {
    if i < j - 1 { LastAcceptedNotBefore(taps, i, j - 1, uid); }
  }

  /** Once a stored counter is two minutes old, only larger ones are ever accepted. */
  lemma ExpiredForGood(taps: seq<Tap>, i: nat, j: nat)
    requires MonotoneClock(taps) && i <= j < |taps|
    requires taps[j].uid in Run(taps[..i])
    requires taps[i].now >= Run(taps[..i])[taps[j].uid].updatedAt + 120_000
    requires AcceptedAt(taps, j)
    ensures taps[j].counter > Run(taps[..i])[taps[j].uid].counter
  {
    RowKeptOrRaised(taps, i, j, taps[j].uid);
    assert i < j ==> taps[i].now <= taps[i].storedAt <= taps[j].now;
  }

  lemma {:induction false} RowKeptOrRaised(taps: seq<Tap>, i: nat, j: nat, uid: string)
    requires MonotoneClock(taps) && i <= j <= |taps| && i < |taps| && uid in Run(taps[..i])
    requires taps[i].now >= Run(taps[..i])[uid].updatedAt + 120_000
    ensures uid in Run(taps[..j])
    ensures Run(taps[..j])[uid] == Run(taps[..i])[uid] || Run(taps[..j])[uid].counter > Run(taps[..i])[uid].counter
    decreases j
  {
    if i < j {
      RowKeptOrRaised(taps, i, j - 1, uid);
      RunStep(taps, j - 1);
      assert i < j - 1 ==> taps[i].now <= taps[i].storedAt <= taps[j - 1].now;
    }
  }

  /** The taps of one uid. */
  function TapsOf(taps: seq<Tap>, uid: string): seq<Tap> {
    if taps == [] then []
    else TapsOf(taps[..|taps| - 1], uid) + (if taps[|taps| - 1].uid == uid then [taps[|taps| - 1]] else [])
  }

  /** Other uids do not matter: a uid's row is what its own taps alone would have left. */
  lemma {:induction false} OtherUidsDoNotMatter(taps: seq<Tap>, uid: string)
    ensures Lookup(Run(taps), uid) == Lookup(Run(TapsOf(taps, uid)), uid)
  {
    if taps != [] {
      var front, last := taps[..|taps| - 1], taps[|taps| - 1];
      OtherUidsDoNotMatter(front, uid);
      var own := TapsOf(front, uid);
      if last.uid == uid {
        assert (own + [last])[..|own|] == own;
      } else {
        assert own + [] == own;
      }
    }
  }
}
