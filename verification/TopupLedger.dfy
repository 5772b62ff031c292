/**
 * Member top-ups (src/db.ts, `insertMemberTopupEvent`): an event table with a unique transaction hash
 * and two aggregate tables kept in the same transaction. The aggregates are compared with what one
 * would count and add up over the events.
 */
module TopupLedger {
  import opened Common
  import opened Text

  /** Addresses are numbers; text that is not an address parses to `None`. */
  type Address = nat

  datatype Source = UsdcPurchasingCard | AndroidNfcTopup | WebPosNfcTopup

  datatype Amount = Missing | BigInt(value: int) | Number(finite: real) | NotFinite | Digits(text: string)

  datatype Params = Params(
    cardAddress: Option<Address>, baseTxHash: string, memberEoa: Option<Address>, memberAa: Option<Address>,
    tierTokenId: string, source: Source, category: Option<string>, points: Amount, usdc: Amount,
    countAsNfc: bool, countAsApp: bool)

  datatype Event = Event(
    card: Address, hash: string, eoa: Address, aa: Address, tier: string, source: Source,
    category: Option<string>, points: int, usdc: int)

  datatype Stat = Stat(aa: Address, tier: string, count: nat, points: int, usdc: int, lastHash: string)

  datatype Rollup = Rollup(total: nat, repeated: nat, nfc: nat, app: nat)

  const NO_ROLLUP := Rollup(0, 0, 0, 0)

  datatype Tables = Tables(events: seq<Event>, stats: map<(Address, Address), Stat>, rollups: map<Address, Rollup>)

  const EMPTY := Tables([], map[], map[])

  // ---- The code ----

  predicate IsDigits(s: string) {
    forall i :: 0 <= i < |s| ==> '0' <= s[i] <= '9'
  }

  function DigitsValue(s: string): nat
    requires IsDigits(s)
  {
    if s == "" then 0 else 10 * DigitsValue(s[..|s| - 1]) + (s[|s| - 1] - '0') as int
  }

  function AmountValue(a: Amount): int {
    match a
    case Missing => 0
    case BigInt(v) => v
    case Number(x) => if x >= 0.0 then x.Floor else 0
    case NotFinite => 0
    case Digits(text) =>
      var s := Trim(text);
      if s != "" && IsDigits(s) then DigitsValue(s) else 0
  }

  predicate IsRepeat(category: Option<string>) {
    category.Some? && (Trim(category.value) == "usdcTopupCard" || Trim(category.value) == "topupCard")
  }

  predicate Valid(p: Params) {
    p.cardAddress.Some? && p.memberEoa.Some?
  }

  function EventOf(p: Params): Event
    requires Valid(p)
  {
    Event(p.cardAddress.value, Lower(p.baseTxHash), p.memberEoa.value,
          if p.memberAa.Some? then p.memberAa.value else 0,
          p.tierTokenId, p.source, p.category, AmountValue(p.points), AmountValue(p.usdc))
  }

  function Bit(b: bool): nat {
    if b then 1 else 0
  }

  predicate Known(events: seq<Event>, hash: string) {
    exists e :: e in events && e.hash == hash
  }

  function NextStat(old_: Option<Stat>, e: Event): Stat {
    match old_
    case None => Stat(e.aa, e.tier, 1, e.points, e.usdc, e.hash)
    case Some(s) => Stat(e.aa, e.tier, s.count + 1, s.points + e.points, s.usdc + e.usdc, e.hash)
  }

  function NextRollup(r: Rollup, p: Params): Rollup {
    Rollup(r.total + 1, r.repeated + Bit(IsRepeat(p.category)),
           r.nfc + Bit(p.source.AndroidNfcTopup? && p.countAsNfc),
           r.app + Bit(p.source.UsdcPurchasingCard? && p.countAsApp))
  }

  function StatOf(t: Tables, card: Address, eoa: Address): Option<Stat> {
    Lookup(t.stats, (card, eoa))
  }

  function RollupOf(t: Tables, card: Address): Rollup {
    if card in t.rollups then t.rollups[card] else NO_ROLLUP
  }

  /** One call: an invalid address aborts it, a known hash inserts nothing, otherwise all three tables move. */
  function Next(t: Tables, p: Params): Tables {
    if !Valid(p) || Known(t.events, Lower(p.baseTxHash)) then t
    else
      var e := EventOf(p);
      Tables(t.events + [e],
             t.stats[(e.card, e.eoa) := NextStat(StatOf(t, e.card, e.eoa), e)],
             t.rollups[e.card := NextRollup(RollupOf(t, e.card), p)])
  }

  class TopupDb {
    var events: seq<Event>
    var stats: map<(Address, Address), Stat>
    var rollups: map<Address, Rollup>

    ghost function State(): Tables
      reads this
    {
      Tables(events, stats, rollups)
    }

    constructor ()
      ensures State() == EMPTY
    {
      events, stats, rollups := [], map[], map[];
    }

    /** `INSERT ... ON CONFLICT (base_tx_hash) DO NOTHING`. */
    method InsertEvent(e: Event) returns (inserted: bool)
      modifies this`events
      ensures inserted == !Known(old(events), e.hash)
      ensures events == if inserted then old(events) + [e] else old(events)
    {
      inserted := true;
      for i := 0 to |events|
        invariant forall k :: 0 <= k < i ==> events[k].hash != e.hash
      {
        if events[i].hash == e.hash { return false; }
      }
      events := events + [e];
    }

    /** `INSERT ... ON CONFLICT (card_address, member_eoa) DO UPDATE`. */
    method UpsertStats(e: Event)
      modifies this`stats
      ensures stats == old(stats)[(e.card, e.eoa) := NextStat(Lookup(old(stats), (e.card, e.eoa)), e)]
    {
      var key := (e.card, e.eoa);
      if key in stats {
        var s := stats[key];
        stats := stats[key := Stat(e.aa, e.tier, s.count + 1, s.points + e.points, s.usdc + e.usdc, e.hash)];
      } else {
        stats := stats[key := Stat(e.aa, e.tier, 1, e.points, e.usdc, e.hash)];
      }
    }

    /** `INSERT ... ON CONFLICT (card_address) DO UPDATE`. */
    method UpsertRollup(card: Address, repeatInc: nat, nfcActInc: nat, appActInc: nat)
      modifies this`rollups
      ensures var r := if card in old(rollups) then old(rollups)[card] else NO_ROLLUP;
        rollups == old(rollups)[
          card := Rollup(r.total + 1, r.repeated + repeatInc, r.nfc + nfcActInc, r.app + appActInc)]
    {
      if card in rollups {
        var r := rollups[card];
        rollups := rollups[card := Rollup(r.total + 1, r.repeated + repeatInc, r.nfc + nfcActInc, r.app + appActInc)];
      } else {
        rollups := rollups[card := Rollup(1, repeatInc, nfcActInc, appActInc)];
      }
    }

    method InsertMemberTopupEvent(p: Params)
      modifies this
      ensures State() == Next(old(State()), p)
    {
      if p.cardAddress.None? || p.memberEoa.None? { return; }
      var e := EventOf(p);
      var inserted := InsertEvent(e);
      if !inserted { return; }
      UpsertStats(e);
      UpsertRollup(e.card, if IsRepeat(p.category) then 1 else 0,
                   if p.source.AndroidNfcTopup? && p.countAsNfc then 1 else 0,
                   if p.source.UsdcPurchasingCard? && p.countAsApp then 1 else 0);
    }
  }

  function Run(t: Tables, calls: seq<Params>): Tables {
    if calls == [] then t else Next(Run(t, calls[..|calls| - 1]), calls[|calls| - 1])
  }

  // ---- Counting over the events ----

  function EventsOf(events: seq<Event>, card: Address, eoa: Address): seq<Event> {
    if events == [] then []
    else
      var e := events[|events| - 1];
      EventsOf(events[..|events| - 1], card, eoa) + if e.card == card && e.eoa == eoa then [e] else []
  }

  function PointsSum(events: seq<Event>): int {
    if events == [] then 0 else PointsSum(events[..|events| - 1]) + events[|events| - 1].points
  }

  function UsdcSum(events: seq<Event>): int {
    if events == [] then 0 else UsdcSum(events[..|events| - 1]) + events[|events| - 1].usdc
  }

  function CardCount(events: seq<Event>, card: Address): nat {
    if events == [] then 0
    else CardCount(events[..|events| - 1], card) + Bit(events[|events| - 1].card == card)
  }

  function RepeatCount(events: seq<Event>, card: Address): nat {
    if events == [] then 0
    else
      var e := events[|events| - 1];
      RepeatCount(events[..|events| - 1], card) + Bit(e.card == card && IsRepeat(e.category))
  }

  /** What the statistics of a member should be. */
  function StatFrom(own: seq<Event>): Option<Stat> {
    if own == [] then None
    else
      var last := own[|own| - 1];
      Some(Stat(last.aa, last.tier, |own|, PointsSum(own), UsdcSum(own), last.hash))
  }

  ghost predicate HashesUnique(events: seq<Event>) {
    forall i, j :: 0 <= i < j < |events| ==> events[i].hash != events[j].hash
  }

  ghost predicate StatAgrees(t: Tables, card: Address, eoa: Address) {
    StatOf(t, card, eoa) == StatFrom(EventsOf(t.events, card, eoa))
  }

  ghost predicate RollupAgrees(t: Tables, card: Address) {
    RollupOf(t, card).total == CardCount(t.events, card) && RollupOf(t, card).repeated == RepeatCount(t.events, card)
  }

  /** In every reachable state, for every card and member, the aggregates are what counting and adding over the event
      table gives. */
  lemma {:induction false} AggregatesEqualLog(calls: seq<Params>, card: Address, eoa: Address)
    ensures StatAgrees(Run(EMPTY, calls), card, eoa) && RollupAgrees(Run(EMPTY, calls), card)
  {
    if calls != [] {
      var t, p := Run(EMPTY, calls[..|calls| - 1]), calls[|calls| - 1];
      AggregatesEqualLog(calls[..|calls| - 1], card, eoa);
      StatStep(t, p, card, eoa);
      RollupStep(t, p, card);
    }
  }

  lemma StatStep(t: Tables, p: Params, card: Address, eoa: Address)
    requires StatAgrees(t, card, eoa)
    ensures StatAgrees(Next(t, p), card, eoa)
  {
    if Valid(p) && !Known(t.events, Lower(p.baseTxHash)) {
      Inserted(t, p, card, eoa);
      EventAdded(t.events, EventOf(p), card, eoa);
      OwnEventAdded(EventsOf(t.events, card, eoa), EventOf(p));
    }
  }

  lemma RollupStep(t: Tables, p: Params, card: Address)
    requires RollupAgrees(t, card)
    ensures RollupAgrees(Next(t, p), card)
  {
    if Valid(p) && !Known(t.events, Lower(p.baseTxHash)) {
      Inserted(t, p, card, 0);
      EventAdded(t.events, EventOf(p), card, 0);
    }
  }

  /** What a call that inserts makes of one member's and one card's aggregates. */
  lemma Inserted(t: Tables, p: Params, card: Address, eoa: Address)
    requires Valid(p) && !Known(t.events, Lower(p.baseTxHash))
    ensures var e, u := EventOf(p), Next(t, p);
      && u.events == t.events + [e]
      && StatOf(u, card, eoa) ==
         (if e.card == card && e.eoa == eoa then Some(NextStat(StatOf(t, card, eoa), e)) else StatOf(t, card, eoa))
      && RollupOf(u, card) == if e.card == card then NextRollup(RollupOf(t, card), p) else RollupOf(t, card)
  {
  }

  lemma EventAdded(events: seq<Event>, e: Event, card: Address, eoa: Address)
    ensures EventsOf(events + [e], card, eoa)
         == EventsOf(events, card, eoa) + if e.card == card && e.eoa == eoa then [e] else []
    ensures CardCount(events + [e], card) == CardCount(events, card) + Bit(e.card == card)
    ensures RepeatCount(events + [e], card) == RepeatCount(events, card) + Bit(e.card == card && IsRepeat(e.category))
  {
    assert (events + [e])[..|events|] == events;
  }

  lemma OwnEventAdded(own: seq<Event>, e: Event)
    ensures StatFrom(own + [e]) == Some(NextStat(StatFrom(own), e))
    ensures own + [] == own
  {
    var all := own + [e];
    assert all[..|all| - 1] == own && all[|all| - 1] == e;
    assert PointsSum(all) == PointsSum(own) + e.points && UsdcSum(all) == UsdcSum(own) + e.usdc;
  }

  /** No transaction hash is in the event table twice. */
  lemma {:induction false} HashesStayUnique(calls: seq<Params>)
    ensures HashesUnique(Run(EMPTY, calls).events)
  {
    if calls != [] {
      HashesStayUnique(calls[..|calls| - 1]);
      var t := Run(EMPTY, calls[..|calls| - 1]);
      assert forall i :: 0 <= i < |t.events| ==> t.events[i] in t.events;
    }
  }

  function SourceCount(events: seq<Event>, card: Address, source: Source): nat {
    if events == [] then 0
    else
      var e := events[|events| - 1];
      SourceCount(events[..|events| - 1], card, source) + Bit(e.card == card && e.source == source)
  }

  ghost predicate Bounded(t: Tables, card: Address) {
    var r := RollupOf(t, card);
    && r.repeated <= r.total && r.nfc + r.app <= r.total
    && r.nfc <= SourceCount(t.events, card, AndroidNfcTopup) && r.app <= SourceCount(t.events, card, UsdcPurchasingCard)
  }

  /** Repeats are among the top-ups, NFC activations among the NFC top-ups and app activations among the USDC
      purchases, and the two never count one top-up twice. */
  lemma {:induction false} CountersBounded(calls: seq<Params>, card: Address)
    ensures Bounded(Run(EMPTY, calls), card)
  {
    if calls != [] {
      CountersBounded(calls[..|calls| - 1], card);
      StepBounded(Run(EMPTY, calls[..|calls| - 1]), calls[|calls| - 1], card);
    }
  }

  lemma StepBounded(t: Tables, p: Params, card: Address)
    requires Bounded(t, card)
    ensures Bounded(Next(t, p), card)
  {
    if Valid(p) && !Known(t.events, Lower(p.baseTxHash)) {
      Inserted(t, p, card, 0);
      SourceAdded(t.events, EventOf(p), card);
    }
  }

  lemma SourceAdded(events: seq<Event>, e: Event, card: Address)
    ensures forall source ::
      SourceCount(events + [e], card, source) ==
      SourceCount(events, card, source) + Bit(e.card == card && e.source == source)
  {
    assert (events + [e])[..|events|] == events;
  }

  /** The counts of the given members. */
  function MemberCounts(t: Tables, card: Address, members: seq<Address>): nat {
    if members == [] then 0
    else
      MemberCounts(t, card, members[..|members| - 1])
      + match StatOf(t, card, members[|members| - 1]) { case None => 0 case Some(s) => s.count }
  }

  lemma {:induction false} OneMemberCounts(t: Tables, p: Params, card: Address, members: seq<Address>)
    requires Valid(p) && !Known(t.events, Lower(p.baseTxHash)) && NoDup(members)
    ensures MemberCounts(Next(t, p), card, members) ==
      MemberCounts(t, card, members) + Bit(p.cardAddress.value == card && p.memberEoa.value in members)
  {
    if members != [] {
      var front, m := members[..|members| - 1], members[|members| - 1];
      assert members == front + [m] && m !in front;
      Inserted(t, p, card, m);
      OneMemberCounts(t, p, card, front);
    }
  }

  /** Over any list of all members of a card, each once, the member counts add up to the card's total. */
  lemma {:induction false} MemberCountsAddUp(calls: seq<Params>, card: Address, members: seq<Address>)
    requires NoDup(members)
    requires forall e :: e in Run(EMPTY, calls).events && e.card == card ==> e.eoa in members
    ensures MemberCounts(Run(EMPTY, calls), card, members) == RollupOf(Run(EMPTY, calls), card).total
  {
    if calls == [] {
      NoCounts(card, members);
    } else {
      var p, t := calls[|calls| - 1], Run(EMPTY, calls[..|calls| - 1]);
      if Next(t, p) != t {
        assert Next(t, p).events == t.events + [EventOf(p)];
        assert EventOf(p) in Next(t, p).events;
        OneMemberCounts(t, p, card, members);
      }
      assert forall e :: e in t.events ==> e in Next(t, p).events;
      MemberCountsAddUp(calls[..|calls| - 1], card, members);
    }
  }

  lemma {:induction false} NoCounts(card: Address, members: seq<Address>)
    ensures MemberCounts(EMPTY, card, members) == 0
  {
    if members != [] { NoCounts(card, members[..|members| - 1]); }
  }

  lemma {:induction false} HashesStayKnown(t: Tables, calls: seq<Params>, hash: string)
    requires Known(t.events, hash)
    ensures Known(Run(t, calls).events, hash)
  {
    if calls != [] {
      var t1, p := Run(t, calls[..|calls| - 1]), calls[|calls| - 1];
      HashesStayKnown(t, calls[..|calls| - 1], hash);
      var e :| e in t1.events && e.hash == hash;
      assert e in Next(t1, p).events;
    }
  }

  /** Repeating earlier calls, in any order, any number of times, and with any other parameters under the same
      hash in any letter case, changes nothing. */
  lemma {:induction false} ReplayChangesNothing(calls: seq<Params>, again: seq<Params>)
    requires forall q :: q in again ==> exists p :: p in calls && Valid(p) && Lower(p.baseTxHash) == Lower(q.baseTxHash)
    ensures Run(Run(EMPTY, calls), again) == Run(EMPTY, calls)
  {
    if again != [] {
      var front, q := again[..|again| - 1], again[|again| - 1];
      assert q in again && forall x :: x in front ==> x in again;
      ReplayChangesNothing(calls, front);
      var p :| p in calls && Valid(p) && Lower(p.baseTxHash) == Lower(q.baseTxHash);
      CalledIsKnown(calls, p);
    }
  }

  lemma {:induction false} CalledIsKnown(calls: seq<Params>, p: Params)
    requires p in calls && Valid(p)
    ensures Known(Run(EMPTY, calls).events, Lower(p.baseTxHash))
  {
    var front, last := calls[..|calls| - 1], calls[|calls| - 1];
    var t := Run(EMPTY, front);
    assert calls == front + [last];
    if p in front {
      CalledIsKnown(front, p);
      HashesStayKnown(t, [last], Lower(p.baseTxHash));
      assert [last][..0] == [] && Run(t, [last]) == Next(t, last);
    } else if !Known(t.events, Lower(p.baseTxHash)) {
      assert EventOf(p) in Next(t, p).events;
    }
  }

  // ---- The tables in terms of the calls alone ----

  const DIGITS := "0123456789"

  /** Decimal text without leading zeros. */
  function Decimal(n: nat): string {
    if n < 10 then [DIGITS[n]] else Decimal(n / 10) + [DIGITS[n % 10]]
  }

  function ZeroText(k: nat): string {
    seq(k, i requires 0 <= i < k => '0')
  }

  /** `s` is a decimal number, possibly with leading zeros. */
  ghost predicate IsDecimal(s: string, n: nat) {
    exists k: nat :: s == ZeroText(k) + Decimal(n)
  }

  ghost predicate TextAmount(text: string, n: nat) {
    exists s: string :: Written(text, s) && IsDecimal(s, n)
  }

  /** What an amount stands for: big integers as they are, numbers that are not negative rounded down, decimal text
      between blanks, and nothing otherwise. */
  ghost predicate IsAmount(a: Amount, v: int) {
    match a
    case Missing => v == 0
    case BigInt(x) => v == x
    case Number(x) => if x >= 0.0 then v as real <= x < v as real + 1.0 else v == 0
    case NotFinite => v == 0
    case Digits(text) => (v >= 0 && TextAmount(text, v)) || (v == 0 && !exists n: nat :: TextAmount(text, n))
  }

  lemma DigitOf(d: nat)
    requires d < 10
    ensures '0' <= DIGITS[d] <= '9' && (DIGITS[d] - '0') as int == d
  {
  }

  lemma DigitFor(c: char)
    requires '0' <= c <= '9'
    ensures (c - '0') as nat < 10 && DIGITS[(c - '0') as nat] == c
  {
  }

  lemma DigitsSnoc(s: string, c: char)
    requires IsDigits(s) && '0' <= c <= '9'
    ensures IsDigits(s + [c]) && DigitsValue(s + [c]) == 10 * DigitsValue(s) + (c - '0') as int
  {
    assert (s + [c])[..|s|] == s;
  }

  lemma {:induction false} ZerosCount(k: nat)
    ensures IsDigits(ZeroText(k)) && DigitsValue(ZeroText(k)) == 0
  {
    if k > 0 {
      ZerosCount(k - 1);
      DigitsSnoc(ZeroText(k - 1), '0');
      assert ZeroText(k) == ZeroText(k - 1) + ['0'];
    }
  }

  /** Decimal text is read back as the number. */
  lemma {:induction false} DecimalRead(k: nat, n: nat)
    ensures var s := ZeroText(k) + Decimal(n); s != "" && IsDigits(s) && DigitsValue(s) == n
    decreases n
  {
    if n < 10 {
      ZerosCount(k);
      DigitOf(n);
      DigitsSnoc(ZeroText(k), DIGITS[n]);
    } else {
      DecimalRead(k, n / 10);
      DigitOf(n % 10);
      DigitsSnoc(ZeroText(k) + Decimal(n / 10), DIGITS[n % 10]);
      Assoc(ZeroText(k), Decimal(n / 10), [DIGITS[n % 10]]);
    }
  }

  lemma {:induction false} DigitsAreDecimal(s: string) returns (k: nat)
    requires s != "" && IsDigits(s)
    ensures s == ZeroText(k) + Decimal(DigitsValue(s))
  {
    var t, c := s[..|s| - 1], s[|s| - 1];
    assert s == t + [c];
    if t == "" {
      k := 0;
      OneDigit(c);
    } else {
      k := DigitsAreDecimal(t);
      k := NextDigit(t, c, k);
    }
  }

  lemma NextDigit(t: string, c: char, k: nat) returns (m: nat)
    requires IsDigits(t) && '0' <= c <= '9' && t == ZeroText(k) + Decimal(DigitsValue(t))
    ensures IsDigits(t + [c]) && t + [c] == ZeroText(m) + Decimal(DigitsValue(t + [c]))
  {
    DigitsSnoc(t, c);
    DigitFor(c);
    m := MoreDecimal(t, k, DigitsValue(t), c, (c - '0') as nat, DigitsValue(t + [c]));
  }

  lemma MoreDecimal(t: string, k: nat, n: nat, c: char, d: nat, v: nat) returns (m: nat)
    requires t == ZeroText(k) + Decimal(n) && d < 10 && DIGITS[d] == c && v == 10 * n + d
    ensures t + [c] == ZeroText(m) + Decimal(v)
  {
    if n > 0 {
      DecimalSnoc(k, n, c, d, v);
      m := k;
    } else {
      ZeroSnoc(k, c, d);
      m := k + 1;
    }
  }

  lemma OneDigit(c: char)
    requires '0' <= c <= '9'
    ensures IsDigits([c]) && [c] == ZeroText(0) + Decimal(DigitsValue([c]))
  {
    DigitFor(c);
    DigitsSnoc("", c);
    assert "" + [c] == [c];
  }

  lemma DecimalSnoc(k: nat, n: nat, c: char, d: nat, v: nat)
    requires n > 0 && d < 10 && DIGITS[d] == c && v == 10 * n + d
    ensures ZeroText(k) + Decimal(n) + [c] == ZeroText(k) + Decimal(v)
  {
    assert v / 10 == n && v % 10 == d;
    assert Decimal(v) == Decimal(n) + [c];
    Assoc(ZeroText(k), Decimal(n), [c]);
  }

  lemma ZeroSnoc(k: nat, c: char, d: nat)
    requires d < 10 && DIGITS[d] == c
    ensures ZeroText(k) + Decimal(0) + [c] == ZeroText(k + 1) + Decimal(d)
  {
    assert ZeroText(k) + Decimal(0) == ZeroText(k + 1);
  }

  /** Every form of amount is read as it should be. */
  lemma AmountMeans(a: Amount)
    ensures IsAmount(a, AmountValue(a))
  {
    if a.Digits? {
      var s := Trim(a.text);
      TrimIsWritten(a.text);
      if s != "" && IsDigits(s) {
        var k := DigitsAreDecimal(s);
        assert IsDecimal(s, DigitsValue(s));
      } else if n: nat :| TextAmount(a.text, n) {
        var t: string :| Written(a.text, t) && IsDecimal(t, n);
        TrimReads(a.text, t);
        var k: nat :| t == ZeroText(k) + Decimal(n);
        DecimalRead(k, n);
        assert false;
      }
    }
  }

  ghost predicate RepeatCall(p: Params) {
    exists s: string ::
      p.category.Some? && Written(p.category.value, s) && (s == "usdcTopupCard" || s == "topupCard")
  }

  lemma RepeatMeans(p: Params)
    ensures IsRepeat(p.category) <==> RepeatCall(p)
  {
    if p.category.Some? { TrimIsWritten(p.category.value); }
    if RepeatCall(p) {
      var s: string :| p.category.Some? && Written(p.category.value, s) && (s == "usdcTopupCard" || s == "topupCard");
      TrimReads(p.category.value, s);
    }
  }

  /** The addresses are good, and no earlier call with good addresses had the hash in any letter case. */
  ghost predicate IsFirst(earlier: seq<Params>, p: Params) {
    && p.cardAddress.Some? && p.memberEoa.Some?
    && forall q :: q in earlier && q.cardAddress.Some? && q.memberEoa.Some? ==> !SameFolded(q.baseTxHash, p.baseTxHash)
  }

  /** The first call under each hash. */
  ghost function FirstCalls(calls: seq<Params>): seq<Params> {
    if calls == [] then []
    else
      var front, p := calls[..|calls| - 1], calls[|calls| - 1];
      FirstCalls(front) + if IsFirst(front, p) then [p] else []
  }

  function CallsOf(calls: seq<Params>, card: Address, eoa: Address): seq<Params> {
    if calls == [] then []
    else
      var p := calls[|calls| - 1];
      CallsOf(calls[..|calls| - 1], card, eoa)
      + if p.cardAddress == Some(card) && p.memberEoa == Some(eoa) then [p] else []
  }

  function PointsTotal(calls: seq<Params>): int {
    if calls == [] then 0 else PointsTotal(calls[..|calls| - 1]) + AmountValue(calls[|calls| - 1].points)
  }

  function UsdcTotal(calls: seq<Params>): int {
    if calls == [] then 0 else UsdcTotal(calls[..|calls| - 1]) + AmountValue(calls[|calls| - 1].usdc)
  }

  function Tally(calls: seq<Params>, f: Params -> bool): nat {
    if calls == [] then 0 else Tally(calls[..|calls| - 1], f) + if f(calls[|calls| - 1]) then 1 else 0
  }

  function OnCard(card: Address): Params -> bool {
    (p: Params) => p.cardAddress == Some(card)
  }

  ghost function RepeatOnCard(card: Address): Params -> bool {
    (p: Params) => p.cardAddress == Some(card) && RepeatCall(p)
  }

  function NfcOnCard(card: Address): Params -> bool {
    (p: Params) => p.cardAddress == Some(card) && p.source == AndroidNfcTopup && p.countAsNfc
  }

  function AppOnCard(card: Address): Params -> bool {
    (p: Params) => p.cardAddress == Some(card) && p.source == UsdcPurchasingCard && p.countAsApp
  }

  /** The event `e` has what the call `p` brought, field by field. */
  predicate Records(e: Event, p: Params) {
    && p.cardAddress == Some(e.card) && p.memberEoa == Some(e.eoa) && InLowerCase(e.hash, p.baseTxHash)
    && e.aa == (if p.memberAa.Some? then p.memberAa.value else 0)
    && e.tier == p.tierTokenId && e.source == p.source && e.category == p.category
    && e.points == AmountValue(p.points) && e.usdc == AmountValue(p.usdc)
  }

  /** A member's row after the calls `own`: how many there were, what they brought, and the last one's particulars. */
  predicate StatMeans(s: Option<Stat>, own: seq<Params>) {
    if own == [] then s.None?
    else
      var last := own[|own| - 1];
      && s.Some?
      && s.value.count == |own| && s.value.points == PointsTotal(own) && s.value.usdc == UsdcTotal(own)
      && s.value.aa == (if last.memberAa.Some? then last.memberAa.value else 0)
      && s.value.tier == last.tierTokenId && InLowerCase(s.value.lastHash, last.baseTxHash)
  }

  ghost predicate RollupMeans(r: Rollup, first: seq<Params>, card: Address) {
    && r.total == Tally(first, OnCard(card)) && r.repeated == Tally(first, RepeatOnCard(card))
    && r.nfc == Tally(first, NfcOnCard(card)) && r.app == Tally(first, AppOnCard(card))
  }

  lemma {:induction false} KnownIffCalled(calls: seq<Params>, hash: string)
    ensures Known(Run(EMPTY, calls).events, hash)
       <==> exists q :: q in calls && Valid(q) && Lower(q.baseTxHash) == hash
  {
    if calls != [] {
      var front, p := calls[..|calls| - 1], calls[|calls| - 1];
      var t := Run(EMPTY, front);
      KnownIffCalled(front, hash);
      assert calls == front + [p];
      if Next(t, p) != t {
        assert Next(t, p).events == t.events + [EventOf(p)];
        assert forall e :: e in Next(t, p).events <==> e in t.events || e == EventOf(p);
      }
    }
  }

  lemma FirstIsNew(front: seq<Params>, p: Params)
    ensures IsFirst(front, p) <==> Valid(p) && !Known(Run(EMPTY, front).events, Lower(p.baseTxHash))
  {
    KnownIffCalled(front, Lower(p.baseTxHash));
    forall q | q in front
      ensures Lower(q.baseTxHash) == Lower(p.baseTxHash) <==> SameFolded(q.baseTxHash, p.baseTxHash) {
      LowerFolds(q.baseTxHash, p.baseTxHash);
    }
  }

  /** The event table holds the first call under each hash, in order and field by field. */
  lemma {:induction false} EventsAreFirstCalls(calls: seq<Params>)
    ensures var es, first := Run(EMPTY, calls).events, FirstCalls(calls);
      |es| == |first| && forall i :: 0 <= i < |es| ==> Records(es[i], first[i])
  {
    if calls != [] {
      var front, p := calls[..|calls| - 1], calls[|calls| - 1];
      EventsAreFirstCalls(front);
      FirstIsNew(front, p);
      LowerIs(p.baseTxHash);
    }
  }

  lemma CallsAdded(calls: seq<Params>, p: Params, card: Address, eoa: Address)
    ensures CallsOf(calls + [p], card, eoa)
         == CallsOf(calls, card, eoa) + if p.cardAddress == Some(card) && p.memberEoa == Some(eoa) then [p] else []
    ensures PointsTotal(calls + [p]) == PointsTotal(calls) + AmountValue(p.points)
    ensures UsdcTotal(calls + [p]) == UsdcTotal(calls) + AmountValue(p.usdc)
  {
    assert (calls + [p])[..|calls|] == calls;
  }

  lemma TallyAdded(calls: seq<Params>, p: Params, f: Params -> bool)
    ensures Tally(calls + [p], f) == Tally(calls, f) + if f(p) then 1 else 0
  {
    assert (calls + [p])[..|calls|] == calls;
  }

  lemma StatAdded(s: Option<Stat>, own: seq<Params>, p: Params)
    requires StatMeans(s, own) && Valid(p)
    ensures StatMeans(Some(NextStat(s, EventOf(p))), own + [p])
  {
    CallsAdded(own, p, 0, 0);
    LowerIs(p.baseTxHash);
    var all := own + [p];
    assert all[|all| - 1] == p;
  }

  /** A member's row is what the first calls under each hash for that card and member amount to. */
  lemma {:induction false} StatsFromCalls(calls: seq<Params>, card: Address, eoa: Address)
    ensures StatMeans(StatOf(Run(EMPTY, calls), card, eoa), CallsOf(FirstCalls(calls), card, eoa))
  {
    if calls != [] {
      var front, p := calls[..|calls| - 1], calls[|calls| - 1];
      var t, first := Run(EMPTY, front), FirstCalls(front);
      StatsFromCalls(front, card, eoa);
      FirstIsNew(front, p);
      if IsFirst(front, p) {
        Inserted(t, p, card, eoa);
        CallsAdded(first, p, card, eoa);
        StatAdded(StatOf(t, card, eoa), CallsOf(first, card, eoa), p);
      } else {
        assert first + [] == first;
      }
      assert CallsOf(first, card, eoa) + [] == CallsOf(first, card, eoa);
    }
  }

  lemma RollupAdded(r: Rollup, first: seq<Params>, p: Params, card: Address)
    requires RollupMeans(r, first, card) && Valid(p)
    ensures RollupMeans(if p.cardAddress.value == card then NextRollup(r, p) else r, first + [p], card)
  {
    TallyAdded(first, p, OnCard(card));
    TallyAdded(first, p, RepeatOnCard(card));
    TallyAdded(first, p, NfcOnCard(card));
    TallyAdded(first, p, AppOnCard(card));
    RepeatMeans(p);
  }

  /** A card's four totals count the first calls under each hash: all of them, those of a repeat category, and those
      of the NFC and of the app channel whose flag is set. */
  lemma {:induction false} RollupsFromCalls(calls: seq<Params>, card: Address)
    ensures RollupMeans(RollupOf(Run(EMPTY, calls), card), FirstCalls(calls), card)
  {
    if calls != [] {
      var front, p := calls[..|calls| - 1], calls[|calls| - 1];
      var t, first := Run(EMPTY, front), FirstCalls(front);
      RollupsFromCalls(front, card);
      FirstIsNew(front, p);
      if IsFirst(front, p) {
        Inserted(t, p, card, 0);
        RollupAdded(RollupOf(t, card), first, p, card);
      } else {
        assert first + [] == first;
      }
    }
  }
}
