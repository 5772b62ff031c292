/**
 * Settle wallets: one roster of signing keys, one occupancy list per chain
 * (src/settleContractPool.ts). An entry is known by its wallet address, as a
 * number: the pool compares lower-cased hex, so letter case never matters.
 */
module SettlePool {
  import opened Common

  type Address = nat

  /** The idle entries of each chain, in the order the next `shift` will hand them out. */
  datatype Pool = Pool(base: seq<Address>, conet: seq<Address>)

  datatype Hold = OnBase(address: Address) | OnConet(address: Address) | OnBoth(address: Address)

  datatype AcquireError = NotInRoster | Busy

  // ---- Searching the idle lists ----

  /** Position of the first entry equal to `want`, or the length when there is none. */
  function FirstIndex(s: seq<Address>, want: Address): (i: nat)
    ensures i <= |s|
    ensures i < |s| ==> s[i] == want
    ensures want !in s[..i]
    ensures i == |s| <==> want !in s
  {
    if s == [] then 0 else if s[0] == want then 0 else 1 + FirstIndex(s[1..], want)
  }

  /** Position of the last entry equal to `want`: what a map filled front to back remembers. */
  function LastIndex(s: seq<Address>, want: Address): (i: nat)
    requires want in s
    ensures i < |s| && s[i] == want
    ensures want !in s[i + 1..]
  {
    if s[|s| - 1] == want then |s| - 1
    else
      assert s == s[..|s| - 1] + [s[|s| - 1]];
      var i := LastIndex(s[..|s| - 1], want);
      assert s[i + 1..] == s[..|s| - 1][i + 1..] + [s[|s| - 1]];
      i
  }

  /** Position of the first Base entry that is idle on CoNET as well, or the length of the Base list. */
  function FirstShared(base: seq<Address>, conet: seq<Address>): (i: nat)
    ensures i <= |base|
    ensures i < |base| ==> base[i] in conet
    ensures forall k :: 0 <= k < i ==> base[k] !in conet
  {
    if base == [] then 0 else if base[0] in conet then 0 else 1 + FirstShared(base[1..], conet)
  }

  // ---- Acquire and release, as functions on the two lists ----

  function TakeBase(p: Pool, i: nat): (r: Pool)
    requires i < |p.base|
  {
    p.(base := RemoveAt(p.base, i))
  }

  function TakeConet(p: Pool, i: nat): (r: Pool)
    requires i < |p.conet|
  {
    p.(conet := RemoveAt(p.conet, i))
  }

  function TakeBoth(p: Pool, i: nat, j: nat): (r: Pool)
    requires i < |p.base| && j < |p.conet|
  {
    Pool(RemoveAt(p.base, i), RemoveAt(p.conet, j))
  }

  function GiveBack(p: Pool, h: Hold): (r: Pool) {
    match h
    case OnBase(a) => p.(base := [a] + p.base)
    case OnConet(a) => p.(conet := [a] + p.conet)
    case OnBoth(a) => Pool([a] + p.base, [a] + p.conet)
  }

  /** `hasIdleSettleBoth`: some CoNET entry is also idle on Base. */
  predicate HasIdleBoth(p: Pool) {
    exists a :: a in p.conet && a in p.base
  }

  /** `hasIdleGenesisInitiatorBoth`. */
  predicate HasIdleGenesisBoth(p: Pool, initiator: Address) {
    initiator in p.base && initiator in p.conet
  }

  /** Entries taken by one acquisition, or none when it fails. */
  datatype Acquisition = Acquisition(hold: Option<Hold>, pool: Pool)

  function AcquireBase(p: Pool): Acquisition {
    if p.base == [] then Acquisition(None, p) else Acquisition(Some(OnBase(p.base[0])), TakeBase(p, 0))
  }

  function AcquireConet(p: Pool): Acquisition {
    if p.conet == [] then Acquisition(None, p) else Acquisition(Some(OnConet(p.conet[0])), TakeConet(p, 0))
  }

  function AcquireBoth(p: Pool): Acquisition {
    var i := FirstShared(p.base, p.conet);
    if i == |p.base| then Acquisition(None, p)
    else Acquisition(Some(OnBoth(p.base[i])), TakeBoth(p, i, LastIndex(p.conet, p.base[i])))
  }

  function AcquireGenesisBase(p: Pool, initiator: Address): Acquisition {
    var i := FirstIndex(p.base, initiator);
    if i == |p.base| then Acquisition(None, p) else Acquisition(Some(OnBase(initiator)), TakeBase(p, i))
  }

  function AcquireGenesisBoth(p: Pool, initiator: Address): Acquisition {
    var i, j := FirstIndex(p.base, initiator), FirstIndex(p.conet, initiator);
    if i == |p.base| || j == |p.conet| then Acquisition(None, p)
    else Acquisition(Some(OnBoth(initiator)), TakeBoth(p, i, j))
  }

  /** A dual acquisition succeeds exactly when `hasIdleSettleBoth` says so, takes the first Base
      entry that CoNET shares, and removes that one entry from each list without reordering the rest. */
  lemma AcquireBothTakesFirstShared(p: Pool)
    ensures AcquireBoth(p).hold.Some? <==> HasIdleBoth(p)
    ensures AcquireBoth(p).hold.None? ==> AcquireBoth(p).pool == p
    ensures HasIdleBoth(p) ==>
      var a, r := AcquireBoth(p).hold.value.address, AcquireBoth(p).pool;
      && AcquireBoth(p).hold == Some(OnBoth(a))
      && (exists i, j ::
            && 0 <= i < |p.base| && 0 <= j < |p.conet|
            && p.base[i] == a == p.conet[j]
            && (forall k :: 0 <= k < i ==> p.base[k] !in p.conet)
            && r.base == p.base[..i] + p.base[i + 1..]
            && r.conet == p.conet[..j] + p.conet[j + 1..])
  {
    var i := FirstShared(p.base, p.conet);
    if i < |p.base| {
      assert p.base[i] in p.conet && p.base[i] in p.base;
      var j := LastIndex(p.conet, p.base[i]);
      var r := AcquireBoth(p).pool;
      assert r.base == p.base[..i] + p.base[i + 1..] && r.conet == p.conet[..j] + p.conet[j + 1..];
    }
  }

  /** The Genesis variant takes the initiator from both lists when both have it, and otherwise from neither. */
  lemma AcquireGenesisBothAllOrNothing(p: Pool, initiator: Address)
    ensures AcquireGenesisBoth(p, initiator).hold
         == if HasIdleGenesisBoth(p, initiator) then Some(OnBoth(initiator)) else None
    ensures !HasIdleGenesisBoth(p, initiator) ==> AcquireGenesisBoth(p, initiator).pool == p
    ensures HasIdleGenesisBoth(p, initiator) ==>
      var r := AcquireGenesisBoth(p, initiator).pool;
      forall a ::
        && Count(p.base, a) == Count(r.base, a) + (if a == initiator then 1 else 0)
        && Count(p.conet, a) == Count(r.conet, a) + (if a == initiator then 1 else 0)
  {
    var i, j := FirstIndex(p.base, initiator), FirstIndex(p.conet, initiator);
    if i < |p.base| && j < |p.conet| {
      forall a { CountRemoveAt(p.base, i, a); }
      forall a { CountRemoveAt(p.conet, j, a); }
    }
  }

  /** A plain shift takes the first idle entry of its chain, and a Genesis shift the first entry of the initiator; they
      leave the other chain alone, and fail, changing nothing, exactly when there is no such entry. */
  lemma SingleShifts(p: Pool, initiator: Address)
    ensures AcquireBase(p) == (if p.base == [] then Acquisition(None, p)
                               else Acquisition(Some(OnBase(p.base[0])), Pool(p.base[1..], p.conet)))
    ensures AcquireConet(p) == (if p.conet == [] then Acquisition(None, p)
                                else Acquisition(Some(OnConet(p.conet[0])), Pool(p.base, p.conet[1..])))
    ensures initiator !in p.base ==> AcquireGenesisBase(p, initiator) == Acquisition(None, p)
    ensures initiator in p.base ==>
      exists i :: 0 <= i < |p.base| && p.base[i] == initiator && initiator !in p.base[..i]
        && AcquireGenesisBase(p, initiator)
           == Acquisition(Some(OnBase(initiator)), Pool(p.base[..i] + p.base[i + 1..], p.conet))
  {
    if initiator in p.base { assert p.base[FirstIndex(p.base, initiator)] == initiator; }
  }

  /** A wallet that comes back is the next one handed out on its chain. */
  lemma ReturnedIsNext(p: Pool, a: Address)
    ensures AcquireBase(GiveBack(p, OnBase(a))) == Acquisition(Some(OnBase(a)), p)
    ensures AcquireConet(GiveBack(p, OnConet(a))) == Acquisition(Some(OnConet(a)), p)
    ensures AcquireBoth(GiveBack(p, OnBoth(a))).hold == Some(OnBoth(a))
    ensures GiveBack(p, OnBoth(a)) == GiveBack(GiveBack(p, OnBase(a)), OnConet(a))
  {
    assert ([a] + p.base)[1..] == p.base && ([a] + p.conet)[1..] == p.conet;
  }

  // ---- Runs: any interleaving of acquisitions and releases ----

  /** The pool together with everything currently held by some job. */
  datatype State = State(pool: Pool, holds: seq<Hold>)

  /** `End` covers a plain `unshift...` as well as the `finally` of a `with...` bracket,
      which releases in the same way whether its body returned or threw. */
  datatype Step =
    | ShiftBase | ShiftConet | ShiftBoth
    | ShiftGenesisBase | ShiftGenesisBoth
    | End(hold: nat)

  function Initial(roster: seq<Address>): State {
    State(Pool(roster, roster), [])
  }

  function Acquire(p: Pool, step: Step, initiator: Address): Acquisition {
    match step
    case ShiftBase => AcquireBase(p)
    case ShiftConet => AcquireConet(p)
    case ShiftBoth => AcquireBoth(p)
    case ShiftGenesisBase => AcquireGenesisBase(p, initiator)
    case ShiftGenesisBoth => AcquireGenesisBoth(p, initiator)
    case End(_) => Acquisition(None, p)
  }

  function Next(s: State, step: Step, initiator: Address): State {
    match step
    case End(i) =>
      if i < |s.holds| then State(GiveBack(s.pool, s.holds[i]), RemoveAt(s.holds, i)) else s
    case _ =>
      var q := Acquire(s.pool, step, initiator);
      if q.hold.None? then s else State(q.pool, s.holds + [q.hold.value])
  }

  function Run(s: State, steps: seq<Step>, initiator: Address): State
    decreases |steps|
  {
    if steps == [] then s else Run(Next(s, steps[0], initiator), steps[1..], initiator)
  }

  datatype Chain = Base | Conet

  function IdleOn(p: Pool, c: Chain): seq<Address> {
    if c == Base then p.base else p.conet
  }

  /** How many slots of wallet `a` on chain `c` one hold occupies. */
  function Part(h: Hold, c: Chain, a: Address): nat {
    if h.address == a && (h.OnBoth? || (h.OnBase? && c == Base) || (h.OnConet? && c == Conet)) then 1 else 0
  }

  function Held(holds: seq<Hold>, c: Chain, a: Address): nat {
    if holds == [] then 0 else Part(holds[0], c, a) + Held(holds[1..], c, a)
  }

  lemma {:induction false} HeldConcat(g: seq<Hold>, h: seq<Hold>, c: Chain, a: Address)
    ensures Held(g + h, c, a) == Held(g, c, a) + Held(h, c, a)
  {
    if g == [] {
      assert g + h == h;
    } else {
      HeldConcat(g[1..], h, c, a);
      assert (g + h)[0] == g[0] && (g + h)[1..] == g[1..] + h;
    }
  }

  lemma HeldAppend(holds: seq<Hold>, h: Hold, c: Chain, a: Address)
    ensures Held(holds + [h], c, a) == Held(holds, c, a) + Part(h, c, a)
  {
    HeldConcat(holds, [h], c, a);
    assert [h][1..] == [];
  }

  lemma HeldRemove(holds: seq<Hold>, i: nat, c: Chain, a: Address)
    requires i < |holds|
    ensures Held(holds, c, a) == Held(RemoveAt(holds, i), c, a) + Part(holds[i], c, a)
  {
    var g, h := holds[..i], holds[i + 1..];
    assert holds == (g + [holds[i]]) + h;
    HeldConcat(g + [holds[i]], h, c, a);
    HeldAppend(g, holds[i], c, a);
    HeldConcat(g, h, c, a);
  }

  /** On each chain the idle and the held slots of each wallet together are its roster entries. */
  ghost predicate Conserved(s: State, roster: seq<Address>) {
    forall c, a :: Count(IdleOn(s.pool, c), a) + Held(s.holds, c, a) == Count(roster, a)
  }

  /** On each chain no wallet is idle twice, held twice, or idle while held. */
  ghost predicate Exclusive(s: State) {
    && (forall c :: NoDup(IdleOn(s.pool, c)))
    && (forall c, a :: Held(s.holds, c, a) <= 1)
    && (forall c, a :: Held(s.holds, c, a) == 1 ==> a !in IdleOn(s.pool, c))
  }

  /** An acquisition moves exactly its hold out of the idle lists. */
  ghost predicate Moves(p: Pool, q: Acquisition, c: Chain, a: Address) {
    match q.hold
    case None => q.pool == p
    case Some(h) => Count(IdleOn(p, c), a) == Count(IdleOn(q.pool, c), a) + Part(h, c, a)
  }

  lemma AcquireMoves(p: Pool, step: Step, initiator: Address, c: Chain, a: Address)
    ensures Moves(p, Acquire(p, step, initiator), c, a)
  {
    match step
    case ShiftBase => if p.base != [] { CountRemoveAt(p.base, 0, a); }
    case ShiftConet => if p.conet != [] { CountRemoveAt(p.conet, 0, a); }
    case ShiftBoth =>
      var k := FirstShared(p.base, p.conet);
      if k < |p.base| {
        CountRemoveAt(p.base, k, a);
        CountRemoveAt(p.conet, LastIndex(p.conet, p.base[k]), a);
      }
    case ShiftGenesisBase =>
      var i := FirstIndex(p.base, initiator);
      if i < |p.base| { CountRemoveAt(p.base, i, a); }
    case ShiftGenesisBoth => AcquireGenesisBothAllOrNothing(p, initiator);
    case End(_) =>
  }

  lemma GiveBackCounts(p: Pool, h: Hold, c: Chain, a: Address)
    ensures Count(IdleOn(GiveBack(p, h), c), a) == Part(h, c, a) + Count(IdleOn(p, c), a)
  {
    assert ([h.address] + p.base)[1..] == p.base && ([h.address] + p.conet)[1..] == p.conet;
  }

  /** Whatever was acquired, releasing it gives each chain the wallets it had, as often as it had them; after a
      plain shift the list is exactly what it was. */
  lemma ReleaseUndoesAcquire(p: Pool, step: Step, initiator: Address, c: Chain, a: Address)
    requires Acquire(p, step, initiator).hold.Some?
    ensures var q := Acquire(p, step, initiator);
      && Count(IdleOn(GiveBack(q.pool, q.hold.value), c), a) == Count(IdleOn(p, c), a)
      && (step.ShiftBase? || step.ShiftConet? ==> GiveBack(q.pool, q.hold.value) == p)
  {
    var q := Acquire(p, step, initiator);
    AcquireMoves(p, step, initiator, c, a);
    GiveBackCounts(q.pool, q.hold.value, c, a);
    assert step.ShiftBase? ==> [p.base[0]] + p.base[1..] == p.base;
    assert step.ShiftConet? ==> [p.conet[0]] + p.conet[1..] == p.conet;
  }

  lemma NextConserves(s: State, step: Step, initiator: Address, roster: seq<Address>)
    requires Conserved(s, roster)
    ensures Conserved(Next(s, step, initiator), roster)
  {
    var n := Next(s, step, initiator);
    forall c, a ensures Count(IdleOn(n.pool, c), a) + Held(n.holds, c, a) == Count(roster, a) {
      assert Count(IdleOn(s.pool, c), a) + Held(s.holds, c, a) == Count(roster, a);
      if step.End? {
        if step.hold < |s.holds| {
          HeldRemove(s.holds, step.hold, c, a);
          GiveBackCounts(s.pool, s.holds[step.hold], c, a);
        }
      } else {
        var q := Acquire(s.pool, step, initiator);
        AcquireMoves(s.pool, step, initiator, c, a);
        if q.hold.Some? { HeldAppend(s.holds, q.hold.value, c, a); }
      }
    }
  }

  lemma {:induction false} RunConserves(s: State, steps: seq<Step>, initiator: Address, roster: seq<Address>)
    requires Conserved(s, roster)
    ensures Conserved(Run(s, steps, initiator), roster)
    decreases |steps|
  {
    if steps != [] {
      NextConserves(s, steps[0], initiator, roster);
      RunConserves(Next(s, steps[0], initiator), steps[1..], initiator, roster);
    }
  }

  /** After any interleaving, for any roster, both chains still account for every roster entry. */
  lemma WalletConservation(roster: seq<Address>, steps: seq<Step>, initiator: Address)
    ensures Conserved(Run(Initial(roster), steps, initiator), roster)
  {
    RunConserves(Initial(roster), steps, initiator, roster);
  }

  /** On each chain at most one user at a time holds a wallet. */
  ghost predicate NoSharedHold(s: State) {
    forall c, a :: Held(s.holds, c, a) <= 1
  }

  function ShiftBases(k: nat): seq<Step> {
    if k == 0 then [] else [ShiftBase] + ShiftBases(k - 1)
  }

  /** As many shifts as there are idle Base entries take each wallet as often as it is listed. */
  lemma {:induction false} ShiftAllBase(s: State, initiator: Address, a: Address)
    ensures Held(Run(s, ShiftBases(|s.pool.base|), initiator).holds, Base, a)
         == Held(s.holds, Base, a) + Count(s.pool.base, a)
    decreases |s.pool.base|
  {
    if s.pool.base != [] {
      var n, k := Next(s, ShiftBase, initiator), |s.pool.base|;
      assert ShiftBases(k)[1..] == ShiftBases(k - 1);
      HeldAppend(s.holds, OnBase(s.pool.base[0]), Base, a);
      ShiftAllBase(n, initiator, a);
    }
  }

  /** No interleaving ever lets two users hold one wallet on one chain, or leaves it idle while it is held, exactly
      when the roster has no duplicate key. */
  lemma MutualExclusionIffDistinctKeys(roster: seq<Address>, initiator: Address)
    ensures (forall steps :: NoSharedHold(Run(Initial(roster), steps, initiator))) <==> NoDup(roster)
    ensures (forall steps :: Exclusive(Run(Initial(roster), steps, initiator))) <==> NoDup(roster)
  {
    if NoDup(roster) {
      forall steps ensures Exclusive(Run(Initial(roster), steps, initiator)) {
        var s := Run(Initial(roster), steps, initiator);
        WalletConservation(roster, steps, initiator);
        NoDupCount(roster);
        forall c
          ensures NoDup(IdleOn(s.pool, c))
          ensures forall a :: Held(s.holds, c, a) <= 1
          ensures forall a :: Held(s.holds, c, a) == 1 ==> a !in IdleOn(s.pool, c)
        {
          assert forall a :: Count(IdleOn(s.pool, c), a) + Held(s.holds, c, a) == Count(roster, a) <= 1;
          NoDupCount(IdleOn(s.pool, c));
          forall a { CountPositive(IdleOn(s.pool, c), a); }
        }
      }
    } else {
      var a := Repeated(roster);
      ShiftAllBase(Initial(roster), initiator, a);
      var s := Run(Initial(roster), ShiftBases(|roster|), initiator);
      assert Held(s.holds, Base, a) > 1;
      assert !NoSharedHold(s) && !Exclusive(s);
    }
  }

  // ---- The module-level arrays and the functions that change them ----

  class SettleContractPool {
    var poolInitialized: bool
    var roster: seq<Address>
    var basePool: seq<Address>
    var conetPool: seq<Address>
    const genesisInitiator: Address

    constructor (initiator: Address)
      ensures !poolInitialized && roster == [] && Idle() == Pool([], []) && genesisInitiator == initiator
    {
      poolInitialized, roster, basePool, conetPool := false, [], [], [];
      genesisInitiator := initiator;
    }

    ghost function Idle(): Pool
      reads this
    {
      Pool(basePool, conetPool)
    }

    /** Only the first call fills the roster and both lists; later calls change nothing. */
    method InitSettleContractPool(admins: seq<Address>)
      modifies this
      ensures poolInitialized
      ensures old(poolInitialized) ==> roster == old(roster) && Idle() == old(Idle())
      ensures !old(poolInitialized) ==>
        && roster == old(roster) + admins
        && Idle() == Pool(old(basePool) + admins, old(conetPool) + admins)
    {
      if poolInitialized { return; }
      poolInitialized := true;
      for k := 0 to |admins|
        invariant poolInitialized
        invariant roster == old(roster) + admins[..k]
        invariant basePool == old(basePool) + admins[..k] && conetPool == old(conetPool) + admins[..k]
      {
        assert admins[..k + 1] == admins[..k] + [admins[k]];
        roster := roster + [admins[k]];
        basePool := basePool + [admins[k]];
        conetPool := conetPool + [admins[k]];
      }
    }

    method ShiftSettleBase() returns (sc: Option<Address>)
      modifies this`basePool
      ensures Idle() == AcquireBase(old(Idle())).pool
      ensures AcquireBase(old(Idle())).hold == if sc.Some? then Some(OnBase(sc.value)) else None
    {
      if basePool == [] { return None; }
      sc := Some(basePool[0]);
      basePool := basePool[1..];
    }

    method ShiftSettleConet() returns (sc: Option<Address>)
      modifies this`conetPool
      ensures Idle() == AcquireConet(old(Idle())).pool
      ensures AcquireConet(old(Idle())).hold == if sc.Some? then Some(OnConet(sc.value)) else None
    {
      if conetPool == [] { return None; }
      sc := Some(conetPool[0]);
      conetPool := conetPool[1..];
    }

    /** `new Map(...)` over the CoNET list: the last index of each address. */
    method ConetIndex() returns (conetIdx: map<Address, nat>)
      ensures forall a :: a in conetIdx <==> a in conetPool
      ensures forall a :: a in conetIdx ==> conetIdx[a] == LastIndex(conetPool, a)
    {
      conetIdx := map[];
      for k := 0 to |conetPool|
        invariant forall a :: a in conetIdx <==> a in conetPool[..k]
        invariant forall a :: a in conetIdx ==> conetIdx[a] == LastIndex(conetPool[..k], a)
      {
        assert conetPool[..k + 1] == conetPool[..k] + [conetPool[k]];
        assert conetPool[..k + 1][..k] == conetPool[..k];
        conetIdx := conetIdx[conetPool[k] := k];
      }
      assert conetPool[..|conetPool|] == conetPool;
    }

    /** Builds the CoNET index first, then walks the Base list until an entry is in it. */
    method ShiftSettleBoth() returns (sc: Option<Address>)
      modifies this`basePool, this`conetPool
      ensures Idle() == AcquireBoth(old(Idle())).pool
      ensures AcquireBoth(old(Idle())).hold == if sc.Some? then Some(OnBoth(sc.value)) else None
    {
      var conetIdx := ConetIndex();
      for i := 0 to |basePool|
        invariant basePool == old(basePool) && conetPool == old(conetPool)
        invariant forall k :: 0 <= k < i ==> basePool[k] !in conetPool
      {
        var a := basePool[i];
        if a in conetIdx {
          FirstSharedAt(basePool, conetPool, i);
          basePool := RemoveAt(basePool, i);
          conetPool := RemoveAt(conetPool, conetIdx[a]);
          return Some(a);
        }
      }
      return None;
    }

    method UnshiftSettleBase(sc: Address)
      modifies this`basePool
      ensures Idle() == GiveBack(old(Idle()), OnBase(sc))
    {
      basePool := [sc] + basePool;
    }

    method UnshiftSettleConet(sc: Address)
      modifies this`conetPool
      ensures Idle() == GiveBack(old(Idle()), OnConet(sc))
    {
      conetPool := [sc] + conetPool;
    }

    method UnshiftSettleBoth(sc: Address)
      modifies this`basePool, this`conetPool
      ensures Idle() == GiveBack(old(Idle()), OnBoth(sc))
    {
      basePool := [sc] + basePool;
      conetPool := [sc] + conetPool;
    }

    method ShiftGenesisBridgeInitiatorBase() returns (sc: Option<Address>)
      modifies this`basePool
      ensures Idle() == AcquireGenesisBase(old(Idle()), genesisInitiator).pool
      ensures AcquireGenesisBase(old(Idle()), genesisInitiator).hold
           == if sc.Some? then Some(OnBase(sc.value)) else None
    {
      var idx := FirstIndex(basePool, genesisInitiator);
      if idx == |basePool| { return None; }
      sc := Some(basePool[idx]);
      basePool := RemoveAt(basePool, idx);
    }

    method ShiftGenesisBridgeInitiatorBoth() returns (sc: Option<Address>)
      modifies this`basePool, this`conetPool
      ensures Idle() == AcquireGenesisBoth(old(Idle()), genesisInitiator).pool
      ensures AcquireGenesisBoth(old(Idle()), genesisInitiator).hold
           == if sc.Some? then Some(OnBoth(sc.value)) else None
    {
      var baseIdx := FirstIndex(basePool, genesisInitiator);
      var conetIdx := FirstIndex(conetPool, genesisInitiator);
      if baseIdx == |basePool| || conetIdx == |conetPool| { return None; }
      sc := Some(basePool[baseIdx]);
      basePool := RemoveAt(basePool, baseIdx);
      conetPool := RemoveAt(conetPool, conetIdx);
    }

    /** Opening a `withGenesisBridgeInitiatorBoth` bracket: the two refusals leave the pool alone. */
    method OpenGenesisBoth() returns (r: Result<Address, AcquireError>)
      modifies this`basePool, this`conetPool
      ensures genesisInitiator !in roster ==> r == Err(NotInRoster)
      ensures genesisInitiator in roster && !HasIdleGenesisBoth(old(Idle()), genesisInitiator) ==> r == Err(Busy)
      ensures genesisInitiator in roster && HasIdleGenesisBoth(old(Idle()), genesisInitiator) ==>
        r == Ok(genesisInitiator) && Idle() == AcquireGenesisBoth(old(Idle()), genesisInitiator).pool
      ensures r.Err? ==> Idle() == old(Idle())
    {
      if genesisInitiator !in roster { return Err(NotInRoster); }
      AcquireGenesisBothAllOrNothing(Idle(), genesisInitiator);
      var sc := ShiftGenesisBridgeInitiatorBoth();
      if sc.None? { return Err(Busy); }
      return Ok(sc.value);
    }
  }

  lemma {:induction false} FirstSharedAt(base: seq<Address>, conet: seq<Address>, i: nat)
    requires i < |base| && base[i] in conet
    requires forall k :: 0 <= k < i ==> base[k] !in conet
    ensures FirstShared(base, conet) == i
  {
    if i > 0 { FirstSharedAt(base[1..], conet, i - 1); }
  }
}
