/**
 * Genesis node purchases (src/genesisNodeReferralIncome.ts, src/db.ts): a purchase is split between
 * an L0, an L1, an admin and the foundation by the role of its referrer, stored, and later expanded
 * into income lines per account. Amounts are integers of 10^-6 USDC.
 */
module GenesisIncome {
  import opened Common
  import opened Text

  /** Addresses are numbers, the zero address is 0. */
  type Address = nat

  const BPS := 10_000

  /** What the vault contract answers. */
  datatype Vault = Vault(
    foundation: Address, defaultAdmin: Address,
    activeL1: Address -> bool, activeL0: Address -> bool, admin: Address -> bool,
    parentL0: Address -> Address, parentAdmin: Address -> Address, ratioBps: Address -> nat)

  /** The vault's preview for the quantity. */
  datatype Preview = Preview(l0Pool: nat, admin: nat, foundation: nat)

  datatype Split = Split(
    l0Pay: Option<Address>, l1Pay: Option<Address>, adminPay: Option<Address>, foundationPay: Option<Address>,
    l0: int, l1: int, admin: int, foundation: int)

  // ---- The split ----

  datatype Role = L1Under(l0: Address) | L0 | Admin | NoRole

  /** `None` is a blank or malformed referrer. */
  function RoleOf(v: Vault, referrer: Option<Address>): Role {
    if referrer.None? || referrer.value == 0 then NoRole
    else
      var r := referrer.value;
      if v.activeL1(r) then
        var l0 := v.parentL0(r);
        if l0 != 0 && v.activeL0(l0) then L1Under(l0) else NoRole
      else if v.activeL0(r) then L0
      else if v.admin(r) then Admin
      else NoRole
  }

  function AdminOver(v: Vault, l0: Address): Address {
    if v.parentAdmin(l0) != 0 then v.parentAdmin(l0) else v.defaultAdmin
  }

  function L1Share(pool: nat, ratioBps: nat): nat {
    pool * (if ratioBps > BPS then BPS else ratioBps) / BPS
  }

  function Payee(a: Address, amount: int): Option<Address> {
    if amount > 0 then Some(a) else None
  }

  /** Who gets what, role by role. */
  function SplitFor(v: Vault, p: Preview, referrer: Option<Address>): Split {
    var toFoundation := p.foundation + p.l0Pool;
    match RoleOf(v, referrer)
    case L1Under(l0) =>
      var l1 := L1Share(p.l0Pool, v.ratioBps(referrer.value));
      Split(Some(l0), referrer, Payee(AdminOver(v, l0), p.admin), Payee(v.foundation, p.foundation),
            p.l0Pool - l1, l1, p.admin, p.foundation)
    case L0 =>
      Split(referrer, None, Payee(AdminOver(v, referrer.value), p.admin), Payee(v.foundation, p.foundation),
            p.l0Pool, 0, p.admin, p.foundation)
    case Admin =>
      Split(None, None, Payee(referrer.value, p.admin), Payee(v.foundation, toFoundation), 0, 0, p.admin, toFoundation)
    case NoRole =>
      Split(None, None, Payee(v.defaultAdmin, p.admin), Payee(v.foundation, toFoundation), 0, 0, p.admin, toFoundation)
  }

  // -- The same from the vault's answers --

  /** An active L1 whose L0 is active, too. */
  predicate PaidAsL1(v: Vault, referrer: Option<Address>, a: Address) {
    && referrer == Some(a) && a != 0
    && v.activeL1(a) && v.parentL0(a) != 0 && v.activeL0(v.parentL0(a))
  }

  /** The L0 of an L1 who is paid, or a referrer that is an L0 and no L1. */
  predicate PaidAsL0(v: Vault, referrer: Option<Address>, a: Address) {
    && referrer.Some? && referrer.value != 0
    && if v.activeL1(referrer.value)
       then a != 0 && v.parentL0(referrer.value) == a && v.activeL0(a)
       else referrer.value == a && v.activeL0(a)
  }

  /** The admin who takes the admin amount: the one over the paid L0, a referrer who is only that, or the default. */
  predicate PaidAsAdmin(v: Vault, referrer: Option<Address>, l0: Option<Address>, a: Address) {
    if l0.Some? && v.parentAdmin(l0.value) != 0 then a == v.parentAdmin(l0.value)
    else if l0.None? && referrer.Some? && referrer.value != 0
            && v.admin(referrer.value) && !v.activeL1(referrer.value) && !v.activeL0(referrer.value)
    then a == referrer.value
    else a == v.defaultAdmin
  }

  /** `cut` is the L1's part of the pool at `ratio` basis points, at most all of it, rounded down. */
  predicate IsCut(pool: nat, ratio: nat, cut: int) {
    if ratio >= 10_000 then cut == pool else cut * 10_000 <= pool * ratio < (cut + 1) * 10_000
  }

  ghost predicate FollowsVault(v: Vault, p: Preview, referrer: Option<Address>, s: Split) {
    && (forall a: Address :: s.l1Pay == Some(a) <==> PaidAsL1(v, referrer, a))
    && (forall a: Address :: s.l0Pay == Some(a) <==> PaidAsL0(v, referrer, a))
    && (if s.l1Pay.Some? then IsCut(p.l0Pool, v.ratioBps(s.l1Pay.value), s.l1) else s.l1 == 0)
    && s.l0 + s.l1 == (if s.l0Pay.Some? then p.l0Pool else 0)
    && s.admin == p.admin
    && (if p.admin == 0 then s.adminPay.None?
        else s.adminPay.Some? && PaidAsAdmin(v, referrer, s.l0Pay, s.adminPay.value))
    && s.foundation == p.foundation + (if s.l0Pay.None? then p.l0Pool else 0)
    && s.foundationPay == (if s.foundation > 0 then Some(v.foundation) else None)
  }

  method ResolveGenesisPurchaseSplit(v: Vault, preview: Preview, referrerRaw: Option<Address>) returns (split: Split)
    ensures split == SplitFor(v, preview, referrerRaw)
    ensures FollowsVault(v, preview, referrerRaw, split)
  {
    SplitFromVault(v, preview, referrerRaw);
    var adminPay := v.defaultAdmin;
    var l0Pool, adminAmount, foundationAmount := preview.l0Pool, preview.admin, preview.foundation;
    var l0Amount, l1Amount := 0, 0;
    var l0Pay, l1Pay: Option<Address> := None, None;
    if referrerRaw.Some? && referrerRaw.value != 0 {
      var referrer := referrerRaw.value;
      var isL1, isL0, isAdmin := v.activeL1(referrer), v.activeL0(referrer), v.admin(referrer);
      if isL1 {
        var parentL0 := v.parentL0(referrer);
        if parentL0 != 0 && v.activeL0(parentL0) {
          var ratio := v.ratioBps(referrer);
          if ratio > BPS { ratio := BPS; }
          l1Amount := l0Pool * ratio / BPS;
          l0Amount := l0Pool - l1Amount;
          l0Pay, l1Pay := Some(parentL0), Some(referrer);
          var parentAdmin := v.parentAdmin(parentL0);
          if parentAdmin != 0 { adminPay := parentAdmin; }
        } else {
          foundationAmount := foundationAmount + l0Pool;
        }
      } else if isL0 {
        l0Amount := l0Pool;
        l0Pay := Some(referrer);
        var parentAdmin := v.parentAdmin(referrer);
        if parentAdmin != 0 { adminPay := parentAdmin; }
      } else if isAdmin {
        foundationAmount := foundationAmount + l0Pool;
        adminPay := referrer;
      } else {
        foundationAmount := foundationAmount + l0Pool;
      }
    } else {
      foundationAmount := foundationAmount + l0Pool;
    }
    split := Split(l0Pay, l1Pay, if adminAmount > 0 then Some(adminPay) else None,
                   if foundationAmount > 0 then Some(v.foundation) else None,
                   l0Amount, l1Amount, adminAmount, foundationAmount);
  }

  lemma ShareWithinPool(pool: nat, ratio: nat)
    ensures L1Share(pool, ratio) <= pool
    ensures ratio <= BPS ==> L1Share(pool, ratio) * BPS <= pool * ratio < (L1Share(pool, ratio) + 1) * BPS
    ensures ratio >= BPS ==> L1Share(pool, ratio) == pool
  {
    var r := if ratio > BPS then BPS else ratio;
    assert pool * r <= pool * BPS;
  }

  /** The split follows from the vault's answers: the L0 pool goes to the foundation exactly when nobody is paid as L0,
      and otherwise to that L0 and its L1; the admin amount and the foundation's own are never touched. */
  lemma SplitFromVault(v: Vault, p: Preview, referrer: Option<Address>)
    ensures FollowsVault(v, p, referrer, SplitFor(v, p, referrer))
  {
    if RoleOf(v, referrer).L1Under? { ShareWithinPool(p.l0Pool, v.ratioBps(referrer.value)); }
  }

  /** Every role and member table: the four amounts are not negative and add up to the sale, every positive one has a
      payee, and an L1 gets its share of the pool rounded down, the rest of the pool going to its L0. */
  lemma SplitConserves(v: Vault, p: Preview, referrer: Option<Address>)
    ensures var s := SplitFor(v, p, referrer);
      && s.l0 >= 0 && s.l1 >= 0 && s.admin >= 0 && s.foundation >= 0
      && s.l0 + s.l1 + s.admin + s.foundation == p.l0Pool + p.admin + p.foundation
      && (s.l0 > 0 ==> s.l0Pay.Some?) && (s.l1 > 0 ==> s.l1Pay.Some?)
      && (s.admin > 0 ==> s.adminPay.Some?) && (s.foundation > 0 ==> s.foundationPay.Some?)
      && (s.l1Pay.Some? ==> s.l0 + s.l1 == p.l0Pool && s.l1 == L1Share(p.l0Pool, v.ratioBps(s.l1Pay.value)))
  {
    if RoleOf(v, referrer).L1Under? { ShareWithinPool(p.l0Pool, v.ratioBps(referrer.value)); }
  }

  // ---- The income lines ----

  /** A stored purchase; an amount that does not parse is `None`, a time that does not parse is 0. */
  datatype Purchase = Purchase(
    usdcTxHash: string, timestampMs: int,
    l0Pay: Option<Address>, l1Pay: Option<Address>, adminPay: Option<Address>, foundationPay: Option<Address>,
    l0: Option<int>, l1: Option<int>, admin: Option<int>, foundation: Option<int>)

  datatype IncomeRole = IncomeL0 | IncomeL1 | IncomeAdmin | IncomeFoundation

  datatype Item = Item(transactionHash: string, amount: int, role: IncomeRole, timestampMs: int)

  function WithPrefix(tx: string): string {
    if "0x" <= tx then tx else "0x" + tx
  }

  function Line(account: Address, row: Purchase, role: IncomeRole, payee: Option<Address>, amount: Option<int>):
    seq<Item> {
    if payee == Some(account) && amount.Some? && amount.value > 0
    then [Item(WithPrefix(row.usdcTxHash), amount.value, role, row.timestampMs)]
    else []
  }

  function Lines(account: Address, row: Purchase): seq<Item> {
    Line(account, row, IncomeL0, row.l0Pay, row.l0)
    + Line(account, row, IncomeL1, row.l1Pay, row.l1)
    + Line(account, row, IncomeAdmin, row.adminPay, row.admin)
    + Line(account, row, IncomeFoundation, row.foundationPay, row.foundation)
  }

  function AllLines(account: Address, rows: seq<Purchase>): seq<Item> {
    if rows == [] then [] else AllLines(account, rows[..|rows| - 1]) + Lines(account, rows[|rows| - 1])
  }

  /** `items.sort((a, b) => b.timestampMs - a.timestampMs)`, which is stable. */
  function SortNewestFirst(s: seq<Item>): seq<Item> {
    if s == [] then [] else InsertItem(SortNewestFirst(s[..|s| - 1]), s[|s| - 1])
  }

  /** Behind every item that is as new. */
  function InsertItem(s: seq<Item>, x: Item): seq<Item> {
    if s == [] || s[|s| - 1].timestampMs >= x.timestampMs then s + [x]
    else InsertItem(s[..|s| - 1], x) + [s[|s| - 1]]
  }

  method ExpandGenesisNodeReferralIncomeItems(account: Address, rows: seq<Purchase>) returns (items: seq<Item>)
    ensures items == SortNewestFirst(AllLines(account, rows))
  {
    items := [];
    for i := 0 to |rows|
      invariant items == AllLines(account, rows[..i])
    {
      var row := rows[i];
      LinesOfNext(account, rows, i);
      items := items + Line(account, row, IncomeL0, row.l0Pay, row.l0);
      items := items + Line(account, row, IncomeL1, row.l1Pay, row.l1);
      items := items + Line(account, row, IncomeAdmin, row.adminPay, row.admin);
      items := items + Line(account, row, IncomeFoundation, row.foundationPay, row.foundation);
    }
    assert rows[..|rows|] == rows;
    items := SortNewestFirst(items);
  }

  /** The four lines of a purchase, one after the other. */
  lemma LinesOfNext(account: Address, rows: seq<Purchase>, i: nat)
    requires i < |rows|
    ensures var (row, before) := (rows[i], AllLines(account, rows[..i]));
      AllLines(account, rows[..i + 1])
      == before + Line(account, row, IncomeL0, row.l0Pay, row.l0) + Line(account, row, IncomeL1, row.l1Pay, row.l1)
         + Line(account, row, IncomeAdmin, row.adminPay, row.admin)
         + Line(account, row, IncomeFoundation, row.foundationPay, row.foundation)
  {
    var row := rows[i];
    assert rows[..i + 1][..i] == rows[..i];
    FourAtOnce(AllLines(account, rows[..i]),
               Line(account, row, IncomeL0, row.l0Pay, row.l0), Line(account, row, IncomeL1, row.l1Pay, row.l1),
               Line(account, row, IncomeAdmin, row.adminPay, row.admin),
               Line(account, row, IncomeFoundation, row.foundationPay, row.foundation));
  }

  lemma FourAtOnce(s: seq<Item>, a: seq<Item>, b: seq<Item>, c: seq<Item>, d: seq<Item>)
    ensures s + a + b + c + d == s + (a + b + c + d)
  {
  }

  // ---- Sorting ----

  ghost predicate NewestFirst(s: seq<Item>) {
    forall i, j :: 0 <= i < j < |s| ==> s[i].timestampMs >= s[j].timestampMs
  }

  /** The items of one moment, in their order. */
  function AtTime(s: seq<Item>, time: int): seq<Item> {
    if s == [] then []
    else AtTime(s[..|s| - 1], time) + if s[|s| - 1].timestampMs == time then [s[|s| - 1]] else []
  }

  lemma AtTimeAppend(s: seq<Item>, x: Item, time: int)
    ensures AtTime(s + [x], time) == AtTime(s, time) + if x.timestampMs == time then [x] else []
  {
    assert (s + [x])[..|s|] == s;
  }

  lemma {:induction false} InsertSorts(s: seq<Item>, x: Item)
    requires NewestFirst(s)
    ensures NewestFirst(InsertItem(s, x)) && |InsertItem(s, x)| == |s| + 1
    ensures forall y :: y in InsertItem(s, x) <==> y in s || y == x
  {
    if s != [] && s[|s| - 1].timestampMs < x.timestampMs {
      var front := s[..|s| - 1];
      InsertSorts(front, x);
      assert s == front + [s[|s| - 1]];
      var r := InsertItem(front, x);
      forall i | 0 <= i < |r| ensures r[i].timestampMs >= s[|s| - 1].timestampMs {
        assert r[i] in r;
      }
    }
  }

  lemma {:induction false} InsertKeepsMoments(s: seq<Item>, x: Item, time: int)
    requires NewestFirst(s)
    ensures AtTime(InsertItem(s, x), time) == AtTime(s, time) + if x.timestampMs == time then [x] else []
  {
    if s == [] || s[|s| - 1].timestampMs >= x.timestampMs {
      AtTimeAppend(s, x, time);
    } else {
      var front, y := s[..|s| - 1], s[|s| - 1];
      InsertKeepsMoments(front, x, time);
      AtTimeAppend(InsertItem(front, x), y, time);
      AtTimeAppend(front, y, time);
      assert s == front + [y];
      OtherMoment(AtTime(front, time), x, y, time);
    }
  }

  /** Items of different moments do not both belong to one. */
  lemma OtherMoment(items: seq<Item>, x: Item, y: Item, time: int)
    requires x.timestampMs != y.timestampMs
    ensures var xs, ys := if x.timestampMs == time then [x] else [], if y.timestampMs == time then [y] else [];
      items + xs + ys == items + ys + xs
  {
    if x.timestampMs == time {
      assert items + [x] + [] == items + [] + [x];
    } else if y.timestampMs == time {
      assert items + [] + [y] == items + [y] + [];
    }
  }

  /** The lines come newest first, and the lines of each moment are the unsorted ones in their order. */
  lemma {:induction false} SortedByTime(s: seq<Item>, time: int)
    ensures NewestFirst(SortNewestFirst(s)) && |SortNewestFirst(s)| == |s|
    ensures AtTime(SortNewestFirst(s), time) == AtTime(s, time)
  {
    if s != [] {
      var front, x := s[..|s| - 1], s[|s| - 1];
      SortedByTime(front, time);
      InsertSorts(SortNewestFirst(front), x);
      InsertKeepsMoments(SortNewestFirst(front), x, time);
    }
  }

  // ---- Conservation over the ledger ----

  function AmountSum(s: seq<Item>): int {
    if s == [] then 0 else AmountSum(s[..|s| - 1]) + s[|s| - 1].amount
  }

  lemma {:induction false} AmountSumConcat(a: seq<Item>, b: seq<Item>)
    ensures AmountSum(a + b) == AmountSum(a) + AmountSum(b)
  {
    if b == [] {
      assert a + b == a;
    } else {
      AmountSumConcat(a, b[..|b| - 1]);
      assert (a + b)[..|a + b| - 1] == a + b[..|b| - 1];
    }
  }

  lemma {:induction false} SortKeepsSum(s: seq<Item>)
    ensures AmountSum(SortNewestFirst(s)) == AmountSum(s)
  {
    if s != [] {
      SortKeepsSum(s[..|s| - 1]);
      InsertKeepsSum(SortNewestFirst(s[..|s| - 1]), s[|s| - 1]);
    }
  }

  lemma {:induction false} InsertKeepsSum(s: seq<Item>, x: Item)
    ensures AmountSum(InsertItem(s, x)) == AmountSum(s) + x.amount
  {
    if s == [] || s[|s| - 1].timestampMs >= x.timestampMs {
      assert (s + [x])[..|s|] == s;
    } else {
      InsertKeepsSum(s[..|s| - 1], x);
      var r := InsertItem(s[..|s| - 1], x);
      assert (r + [s[|s| - 1]])[..|r|] == r;
    }
  }

  /** An account's income. */
  function Income(account: Address, rows: seq<Purchase>): int {
    AmountSum(SortNewestFirst(AllLines(account, rows)))
  }

  function IncomeOfAll(accounts: seq<Address>, rows: seq<Purchase>): int {
    if accounts == [] then 0
    else IncomeOfAll(accounts[..|accounts| - 1], rows) + Income(accounts[|accounts| - 1], rows)
  }

  function Paid(payee: Option<Address>, amount: Option<int>): int {
    if payee.Some? && amount.Some? && amount.value > 0 then amount.value else 0
  }

  /** What a purchase pays out. */
  function PaidOut(row: Purchase): int {
    Paid(row.l0Pay, row.l0) + Paid(row.l1Pay, row.l1)
    + Paid(row.adminPay, row.admin) + Paid(row.foundationPay, row.foundation)
  }

  function PaidOutByAll(rows: seq<Purchase>): int {
    if rows == [] then 0 else PaidOutByAll(rows[..|rows| - 1]) + PaidOut(rows[|rows| - 1])
  }

  /** The part of one slot that goes to an account. */
  function Slot(account: Address, payee: Option<Address>, amount: Option<int>): int {
    if payee == Some(account) then Paid(payee, amount) else 0
  }

  function RowIncome(account: Address, row: Purchase): int {
    Slot(account, row.l0Pay, row.l0) + Slot(account, row.l1Pay, row.l1)
    + Slot(account, row.adminPay, row.admin) + Slot(account, row.foundationPay, row.foundation)
  }

  lemma LineSum(account: Address, row: Purchase, role: IncomeRole, payee: Option<Address>, amount: Option<int>)
    ensures AmountSum(Line(account, row, role, payee, amount)) == Slot(account, payee, amount)
  {
    var l := Line(account, row, role, payee, amount);
    if l != [] { assert l[..0] == []; }
  }

  lemma LinesSum(account: Address, row: Purchase)
    ensures AmountSum(Lines(account, row)) == RowIncome(account, row)
  {
    var a, b := Line(account, row, IncomeL0, row.l0Pay, row.l0), Line(account, row, IncomeL1, row.l1Pay, row.l1);
    var c := Line(account, row, IncomeAdmin, row.adminPay, row.admin);
    var d := Line(account, row, IncomeFoundation, row.foundationPay, row.foundation);
    LineSum(account, row, IncomeL0, row.l0Pay, row.l0);
    LineSum(account, row, IncomeL1, row.l1Pay, row.l1);
    LineSum(account, row, IncomeAdmin, row.adminPay, row.admin);
    LineSum(account, row, IncomeFoundation, row.foundationPay, row.foundation);
    AmountSumConcat(a + b + c, d);
    AmountSumConcat(a + b, c);
    AmountSumConcat(a, b);
  }

  lemma IncomeStep(account: Address, rows: seq<Purchase>)
    requires rows != []
    ensures Income(account, rows) == Income(account, rows[..|rows| - 1]) + RowIncome(account, rows[|rows| - 1])
  {
    var front, row := rows[..|rows| - 1], rows[|rows| - 1];
    SortKeepsSum(AllLines(account, rows));
    SortKeepsSum(AllLines(account, front));
    AmountSumConcat(AllLines(account, front), Lines(account, row));
    LinesSum(account, row);
  }

  /** What one purchase pays to all the given accounts. */
  function RowIncomeOfAll(accounts: seq<Address>, row: Purchase): int {
    if accounts == [] then 0
    else RowIncomeOfAll(accounts[..|accounts| - 1], row) + RowIncome(accounts[|accounts| - 1], row)
  }

  lemma {:induction false} IncomeOfAllStep(accounts: seq<Address>, rows: seq<Purchase>)
    requires rows != []
    ensures IncomeOfAll(accounts, rows)
         == IncomeOfAll(accounts, rows[..|rows| - 1]) + RowIncomeOfAll(accounts, rows[|rows| - 1])
  {
    if accounts != [] {
      IncomeOfAllStep(accounts[..|accounts| - 1], rows);
      IncomeStep(accounts[|accounts| - 1], rows);
    }
  }

  function SlotOfAll(accounts: seq<Address>, payee: Option<Address>, amount: Option<int>): int {
    if accounts == [] then 0
    else SlotOfAll(accounts[..|accounts| - 1], payee, amount) + Slot(accounts[|accounts| - 1], payee, amount)
  }

  lemma {:induction false} SlotPaidOnce(accounts: seq<Address>, payee: Option<Address>, amount: Option<int>)
    requires NoDup(accounts)
    ensures SlotOfAll(accounts, payee, amount) ==
      if payee.Some? && payee.value in accounts then Paid(payee, amount) else 0
  {
    if accounts != [] {
      var front, last := accounts[..|accounts| - 1], accounts[|accounts| - 1];
      assert accounts == front + [last] && last !in front;
      SlotPaidOnce(front, payee, amount);
    }
  }

  lemma {:induction false} RowIncomeBySlots(accounts: seq<Address>, row: Purchase)
    ensures RowIncomeOfAll(accounts, row)
         == SlotOfAll(accounts, row.l0Pay, row.l0) + SlotOfAll(accounts, row.l1Pay, row.l1)
          + SlotOfAll(accounts, row.adminPay, row.admin) + SlotOfAll(accounts, row.foundationPay, row.foundation)
  {
    if accounts != [] { RowIncomeBySlots(accounts[..|accounts| - 1], row); }
  }

  ghost predicate PayeesAmong(accounts: seq<Address>, row: Purchase) {
    && (row.l0Pay.Some? ==> row.l0Pay.value in accounts) && (row.l1Pay.Some? ==> row.l1Pay.value in accounts)
    && (row.adminPay.Some? ==> row.adminPay.value in accounts)
    && (row.foundationPay.Some? ==> row.foundationPay.value in accounts)
  }

  /** Over any purchases, the income of all payees, each taken once, is what the purchases pay out. */
  lemma {:induction false} IncomeIsPaidOut(accounts: seq<Address>, rows: seq<Purchase>)
    requires NoDup(accounts) && forall r :: r in rows ==> PayeesAmong(accounts, r)
    ensures IncomeOfAll(accounts, rows) == PaidOutByAll(rows)
  {
    if rows == [] {
      NoIncome(accounts);
    } else {
      var front, row := rows[..|rows| - 1], rows[|rows| - 1];
      assert row in rows && forall r :: r in front ==> r in rows;
      IncomeIsPaidOut(accounts, front);
      IncomeOfAllStep(accounts, rows);
      RowIncomeBySlots(accounts, row);
      SlotPaidOnce(accounts, row.l0Pay, row.l0);
      SlotPaidOnce(accounts, row.l1Pay, row.l1);
      SlotPaidOnce(accounts, row.adminPay, row.admin);
      SlotPaidOnce(accounts, row.foundationPay, row.foundation);
    }
  }

  lemma {:induction false} NoIncome(accounts: seq<Address>)
    ensures IncomeOfAll(accounts, []) == 0
  {
    if accounts != [] { NoIncome(accounts[..|accounts| - 1]); }
  }

  // ---- From sale to income ----

  /** A purchase as it is reported; `buyer` is `None` when its text is not an address. */
  datatype Sale = Sale(
    vault: Vault, preview: Preview, referrer: Option<Address>, buyer: Option<Address>, qty: int,
    usdcTxHash: string, timestampMs: int)

  predicate IsTxHash(s: string) {
    |s| == 66 && StartsWith(s, "0x") && forall i :: 2 <= i < |s| ==> IsHexDigit(s[i])
  }

  /** Other purchases are refused with an error. */
  predicate Recordable(s: Sale) {
    IsTxHash(Trim(s.usdcTxHash)) && s.buyer.Some? && s.qty > 0
  }

  /** The hash under which a purchase is stored. */
  function HashOf(s: Sale): string {
    Lower(Trim(s.usdcTxHash))
  }

  /** The purchase row that is stored for a sale. */
  function Stored(s: Sale): Purchase {
    var p := SplitFor(s.vault, s.preview, s.referrer);
    Purchase(HashOf(s), s.timestampMs, p.l0Pay, p.l1Pay, p.adminPay, p.foundationPay,
             Some(p.l0), Some(p.l1), Some(p.admin), Some(p.foundation))
  }

  predicate HasHash(rows: seq<Purchase>, hash: string) {
    exists r :: r in rows && r.usdcTxHash == hash
  }

  /** A purchase whose hash is stored already is not split again. */
  function Record(rows: seq<Purchase>, s: Sale): seq<Purchase> {
    if !Recordable(s) || HasHash(rows, HashOf(s)) then rows else rows + [Stored(s)]
  }

  function Ledger(sales: seq<Sale>): seq<Purchase> {
    if sales == [] then [] else Record(Ledger(sales[..|sales| - 1]), sales[|sales| - 1])
  }

  class GenesisLedger {
    var rows: seq<Purchase>

    constructor ()
      ensures rows == []
    {
      rows := [];
    }

    method FindByUsdcTx(hash: string) returns (found: bool)
      ensures found == HasHash(rows, hash)
    {
      for i := 0 to |rows|
        invariant forall k :: 0 <= k < i ==> rows[k].usdcTxHash != hash
      {
        if rows[i].usdcTxHash == hash { return true; }
      }
      found := false;
    }

    method RecordGenesisNodeReferralPurchaseIncome(s: Sale)
      modifies this
      ensures rows == Record(old(rows), s)
    {
      var usdcTx := Trim(s.usdcTxHash);
      if !IsTxHash(usdcTx) || s.buyer.None? || s.qty <= 0 { return; }
      var existing := FindByUsdcTx(Lower(usdcTx));
      if existing { return; }
      var p := ResolveGenesisPurchaseSplit(s.vault, s.preview, s.referrer);
      rows := rows + [Purchase(Lower(usdcTx), s.timestampMs, p.l0Pay, p.l1Pay, p.adminPay, p.foundationPay,
                               Some(p.l0), Some(p.l1), Some(p.admin), Some(p.foundation))];
    }
  }

  predicate Reported(sales: seq<Sale>, hash: string) {
    exists i :: 0 <= i < |sales| && Recordable(sales[i]) && HashOf(sales[i]) == hash
  }

  /** What was sold: each hash counts once, with the first purchase that was recorded under it. */
  function SalesTotal(sales: seq<Sale>): int {
    if sales == [] then 0
    else
      var front, s := sales[..|sales| - 1], sales[|sales| - 1];
      SalesTotal(front)
      + if Recordable(s) && !Reported(front, HashOf(s))
        then s.preview.l0Pool + s.preview.admin + s.preview.foundation else 0
  }

  lemma {:induction false} LedgerHashes(sales: seq<Sale>, hash: string)
    ensures HasHash(Ledger(sales), hash) <==> Reported(sales, hash)
  {
    if sales != [] {
      var front, s := sales[..|sales| - 1], sales[|sales| - 1];
      LedgerHashes(front, hash);
      LedgerHashes(front, HashOf(s));
      assert Reported(sales, hash) <==> Reported(front, hash) || (Recordable(s) && HashOf(s) == hash);
      assert Stored(s) in Ledger(front) + [Stored(s)];
      assert forall r :: r in Ledger(front) ==> r in Ledger(sales);
    }
  }

  /** No hash is in the ledger twice. */
  lemma {:induction false} LedgerHashesUnique(sales: seq<Sale>)
    ensures forall i, j :: 0 <= i < j < |Ledger(sales)| ==> Ledger(sales)[i].usdcTxHash != Ledger(sales)[j].usdcTxHash
  {
    if sales != [] {
      var rows := Ledger(sales[..|sales| - 1]);
      LedgerHashesUnique(sales[..|sales| - 1]);
      assert forall i :: 0 <= i < |rows| ==> rows[i] in rows;
    }
  }

  lemma {:induction false} LedgerPaysSales(sales: seq<Sale>)
    ensures PaidOutByAll(Ledger(sales)) == SalesTotal(sales)
  {
    if sales != [] {
      var front, s := sales[..|sales| - 1], sales[|sales| - 1];
      LedgerPaysSales(front);
      LedgerHashes(front, HashOf(s));
      StoredPaysSale(Ledger(front), s);
    }
  }

  lemma StoredPaysSale(rows: seq<Purchase>, s: Sale)
    ensures PaidOutByAll(rows + [Stored(s)]) ==
      PaidOutByAll(rows) + s.preview.l0Pool + s.preview.admin + s.preview.foundation
  {
    SplitConserves(s.vault, s.preview, s.referrer);
    assert (rows + [Stored(s)])[..|rows|] == rows;
  }

  /** Nothing is lost or paid twice between the sales and the income lines: over all payees, the lines add up to
      exactly what was sold, each hash counted once. */
  lemma SalesBecomeIncome(sales: seq<Sale>, accounts: seq<Address>)
    requires NoDup(accounts) && forall r :: r in Ledger(sales) ==> PayeesAmong(accounts, r)
    ensures IncomeOfAll(accounts, Ledger(sales)) == SalesTotal(sales)
  {
    IncomeIsPaidOut(accounts, Ledger(sales));
    LedgerPaysSales(sales);
  }

  // -- What each account is due --

  /** The hash as it should be written: 0x and 64 hex digits, with or without blanks around. */
  ghost predicate WellHashed(text: string) {
    exists t: string :: Written(text, t)
      && |t| == 66 && t[0] == '0' && t[1] == 'x'
      && forall i :: 2 <= i < 66 ==> '0' <= t[i] <= '9' || 'a' <= t[i] <= 'f' || 'A' <= t[i] <= 'F'
  }

  ghost predicate Acceptable(s: Sale) {
    WellHashed(s.usdcTxHash) && s.buyer.Some? && s.qty > 0
  }

  lemma RecordableIs(s: Sale)
    ensures Recordable(s) <==> Acceptable(s)
  {
    TrimIsWritten(s.usdcTxHash);
    if WellHashed(s.usdcTxHash) {
      var t: string :| Written(s.usdcTxHash, t)
        && |t| == 66 && t[0] == '0' && t[1] == 'x'
        && forall i :: 2 <= i < 66 ==> '0' <= t[i] <= '9' || 'a' <= t[i] <= 'f' || 'A' <= t[i] <= 'F';
      TrimReads(s.usdcTxHash, t);
    }
  }

  /** The `i`-th sale is the first acceptable one under its hash, in whatever spelling. */
  ghost predicate FirstUnderHash(sales: seq<Sale>, i: nat)
    requires i < |sales|
  {
    && Acceptable(sales[i])
    && forall j :: 0 <= j < i && Acceptable(sales[j]) ==> !SameName(sales[j].usdcTxHash, sales[i].usdcTxHash)
  }

  /** What one sale pays an account in each role, by the vault's answers. */
  ghost predicate IsDue(s: Sale, a: Address, amount: int) {
    exists split: Split :: FollowsVault(s.vault, s.preview, s.referrer, split)
      && amount == (if split.l0Pay == Some(a) then split.l0 else 0) + (if split.l1Pay == Some(a) then split.l1 else 0)
                 + (if split.adminPay == Some(a) then split.admin else 0)
                 + (if split.foundationPay == Some(a) then split.foundation else 0)
  }

  /** `dues` lists what each sale pays the account: nothing unless it is the first under its hash. */
  ghost predicate Dues(sales: seq<Sale>, a: Address, dues: seq<int>) {
    && |dues| == |sales|
    && forall i :: 0 <= i < |sales| ==>
         if FirstUnderHash(sales, i) then IsDue(sales[i], a, dues[i]) else dues[i] == 0
  }

  function Total(xs: seq<int>): int {
    if xs == [] then 0 else Total(xs[..|xs| - 1]) + xs[|xs| - 1]
  }

  lemma CountedOnce(sales: seq<Sale>, i: nat)
    requires i < |sales|
    ensures FirstUnderHash(sales, i)
       <==> Recordable(sales[i]) && !HasHash(Ledger(sales[..i]), HashOf(sales[i]))
  {
    var front, s := sales[..i], sales[i];
    RecordableIs(s);
    LedgerHashes(front, HashOf(s));
    forall j | 0 <= j < i
      ensures Recordable(front[j]) && HashOf(front[j]) == HashOf(s)
         <==> Acceptable(sales[j]) && SameName(sales[j].usdcTxHash, s.usdcTxHash) {
      RecordableIs(sales[j]);
      OneNameOneText(sales[j].usdcTxHash, s.usdcTxHash);
    }
  }

  lemma StoredIsDue(s: Sale, a: Address)
    ensures IsDue(s, a, RowIncome(a, Stored(s)))
  {
    var split := SplitFor(s.vault, s.preview, s.referrer);
    SplitFromVault(s.vault, s.preview, s.referrer);
    SplitConserves(s.vault, s.preview, s.referrer);
  }

  lemma DuesAppend(sales: seq<Sale>, s: Sale, a: Address, dues: seq<int>, amount: int)
    requires Dues(sales, a, dues)
    requires if FirstUnderHash(sales + [s], |sales|) then IsDue(s, a, amount) else amount == 0
    ensures Dues(sales + [s], a, dues + [amount])
  {
    forall i | 0 <= i < |sales| ensures FirstUnderHash(sales + [s], i) <==> FirstUnderHash(sales, i) {
      assert forall j :: 0 <= j <= i ==> (sales + [s])[j] == sales[j];
    }
  }

  /** An account's income is what the vault's answers make it due from each sale that counts, and nothing else. */
  lemma {:induction false} IncomeIsDue(sales: seq<Sale>, a: Address) returns (dues: seq<int>)
    ensures Dues(sales, a, dues) && Income(a, Ledger(sales)) == Total(dues)
  {
    dues := [];
    if sales != [] {
      var n := |sales| - 1;
      var front, s := sales[..n], sales[n];
      var before := IncomeIsDue(front, a);
      var amount := if FirstUnderHash(sales, n) then RowIncome(a, Stored(s)) else 0;
      assert sales == front + [s];
      StoredIsDue(s, a);
      DuesAppend(front, s, a, before, amount);
      dues := before + [amount];
      assert dues[..n] == before;
      LastSaleAdds(sales, a);
    }
  }

  lemma LastSaleAdds(sales: seq<Sale>, a: Address)
    requires sales != []
    ensures var n := |sales| - 1;
      Income(a, Ledger(sales)) ==
      Income(a, Ledger(sales[..n])) + (if FirstUnderHash(sales, n) then RowIncome(a, Stored(sales[n])) else 0)
  {
    var n := |sales| - 1;
    var rows := Ledger(sales[..n]);
    CountedOnce(sales, n);
    if FirstUnderHash(sales, n) {
      assert Ledger(sales) == rows + [Stored(sales[n])];
      IncomeStep(a, Ledger(sales));
      assert (rows + [Stored(sales[n])])[..|rows|] == rows;
    }
  }

  /** A line shows a positive amount of a purchase in a role in which the account is paid. */
  predicate IsLineOf(a: Address, row: Purchase, x: Item) {
    && x.amount > 0 && x.timestampMs == row.timestampMs
    && x.transactionHash == (if |row.usdcTxHash| >= 2 && row.usdcTxHash[..2] == ['0', 'x']
                             then row.usdcTxHash else ['0', 'x'] + row.usdcTxHash)
    && match x.role
       case IncomeL0 => row.l0Pay == Some(a) && row.l0 == Some(x.amount)
       case IncomeL1 => row.l1Pay == Some(a) && row.l1 == Some(x.amount)
       case IncomeAdmin => row.adminPay == Some(a) && row.admin == Some(x.amount)
       case IncomeFoundation => row.foundationPay == Some(a) && row.foundation == Some(x.amount)
  }

  lemma LinesMean(a: Address, row: Purchase, x: Item)
    ensures x in Lines(a, row) <==> IsLineOf(a, row, x)
  {
  }

  lemma {:induction false} SortKeepsItems(s: seq<Item>, x: Item)
    ensures x in SortNewestFirst(s) <==> x in s
  {
    if s != [] {
      var front, y := s[..|s| - 1], s[|s| - 1];
      SortKeepsItems(front, x);
      SortedByTime(front, 0);
      InsertSorts(SortNewestFirst(front), y);
      assert s == front + [y];
    }
  }

  /** The lines of an account are the positive amounts it is paid, in every role, and no others. */
  lemma {:induction false} ItemsMean(a: Address, rows: seq<Purchase>, x: Item)
    ensures x in SortNewestFirst(AllLines(a, rows)) <==> exists i :: 0 <= i < |rows| && IsLineOf(a, rows[i], x)
  {
    SortKeepsItems(AllLines(a, rows), x);
    if rows != [] {
      var front, row := rows[..|rows| - 1], rows[|rows| - 1];
      ItemsMean(a, front, x);
      SortKeepsItems(AllLines(a, front), x);
      LinesMean(a, row, x);
      assert forall i :: 0 <= i < |front| ==> front[i] == rows[i];
      assert rows[|front|] == row;
      if i :| 0 <= i < |rows| && IsLineOf(a, rows[i], x) {
        assert i < |front| ==> IsLineOf(a, front[i], x);
      }
    }
  }

  /** Recording purchases again, in any letter case and with any other particulars, changes no account's income. */
  lemma {:induction false} RecordingAgainChangesNothing(sales: seq<Sale>, again: seq<Sale>, account: Address)
    requires forall s :: s in again && Recordable(s) ==> Reported(sales, HashOf(s))
    ensures Ledger(sales + again) == Ledger(sales)
    ensures Income(account, Ledger(sales + again)) == Income(account, Ledger(sales))
  {
    if again == [] {
      assert sales + again == sales;
    } else {
      var front, s, all := again[..|again| - 1], again[|again| - 1], sales + again;
      assert forall x :: x in front ==> x in again;
      RecordingAgainChangesNothing(sales, front, account);
      assert all[..|all| - 1] == sales + front && all[|all| - 1] == s;
      KnownSaleIsSkipped(sales, s);
    }
  }

  lemma KnownSaleIsSkipped(sales: seq<Sale>, s: Sale)
    requires Recordable(s) ==> Reported(sales, HashOf(s))
    ensures Record(Ledger(sales), s) == Ledger(sales)
  {
    LedgerHashes(sales, HashOf(s));
  }
}
