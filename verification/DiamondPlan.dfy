/**
 * The diamond upgrade planner (src/develop.ts): for each facet, selectors are sorted into Add,
 * Replace, Skip and Forbidden against a local map of routes, and at most two cuts are sent. The
 * chain's own table follows ERC-2535, section "Adding/Replacing/Removing Functions".
 */
module DiamondPlan {
  import opened Common
  import opened Text

  /** Selector to facet address; addresses are lower case. */
  type Table = map<string, string>

  const DIAMOND_CUT_SELECTOR := "0x1f931c1c"
  const ZERO := "0x0000000000000000000000000000000000000000"

  datatype Action = Add | Replace

  datatype Cut = Cut(facet: string, action: Action, selectors: seq<string>)

  function RouteAll(t: Table, selectors: seq<string>, facet: string): Table {
    if selectors == [] then t
    else RouteAll(t, selectors[..|selectors| - 1], facet)[selectors[|selectors| - 1] := facet]
  }

  // ---- The chain ----

  /** When the diamond accepts a cut: Add needs unset selectors, Replace needs selectors routed elsewhere. */
  ghost predicate Legal(chain: Table, cut: Cut) {
    && cut.facet != ZERO && cut.facet != "" && cut.selectors != [] && NoDup(cut.selectors)
    && forall s :: s in cut.selectors ==>
         match cut.action
         case Add => s !in chain
         case Replace => s in chain && chain[s] != cut.facet
  }

  function Apply(chain: Table, cut: Cut): Table {
    RouteAll(chain, cut.selectors, cut.facet)
  }

  function ApplyAll(chain: Table, cuts: seq<Cut>): Table {
    if cuts == [] then chain else Apply(ApplyAll(chain, cuts[..|cuts| - 1]), cuts[|cuts| - 1])
  }

  ghost predicate AllLegal(chain: Table, cuts: seq<Cut>) {
    cuts != [] ==>
      AllLegal(chain, cuts[..|cuts| - 1]) && Legal(ApplyAll(chain, cuts[..|cuts| - 1]), cuts[|cuts| - 1])
  }

  // ---- The plan of one facet ----

  /** The selectors of an ABI without repetitions, the first occurrence kept. */
  function Distinct(s: seq<string>): seq<string> {
    if s == [] then []
    else
      var front := Distinct(s[..|s| - 1]);
      if s[|s| - 1] in front then front else front + [s[|s| - 1]]
  }

  /** `selectors` are those of the facet's ABI, in lower case and with repetitions. */
  datatype Plan = Plan(facet: string, selectors: seq<string>)

  datatype Decision = ToAdd | ToReplace | Skip | Forbidden

  function Classify(sel: string, installed: Table, target: string): Decision {
    if sel == DIAMOND_CUT_SELECTOR then Forbidden
    else if sel !in installed || installed[sel] == "" then ToAdd
    else if installed[sel] == target then Skip
    else ToReplace
  }

  /** The selectors with one decision, in order. */
  function Chosen(desired: seq<string>, installed: Table, target: string, d: Decision): seq<string> {
    if desired == [] then []
    else
      var front, last := desired[..|desired| - 1], desired[|desired| - 1];
      Chosen(front, installed, target, d) + if Classify(last, installed, target) == d then [last] else []
  }

  method PlanCutsForFacet(desired: seq<string>, installed: Table, targetFacet: string)
    returns (add: seq<string>, replace: seq<string>, skip: seq<string>, forbidden: seq<string>)
    ensures add == Chosen(desired, installed, Lower(targetFacet), ToAdd)
    ensures replace == Chosen(desired, installed, Lower(targetFacet), ToReplace)
    ensures skip == Chosen(desired, installed, Lower(targetFacet), Skip)
    ensures forbidden == Chosen(desired, installed, Lower(targetFacet), Forbidden)
    ensures Sorted(desired, installed, Lower(targetFacet), add, replace, skip, forbidden)
  {
    FourLists(desired, installed, Lower(targetFacet));
    add, replace, skip, forbidden := [], [], [], [];
    var target := Lower(targetFacet);
    for i := 0 to |desired|
      invariant add == Chosen(desired[..i], installed, target, ToAdd)
      invariant replace == Chosen(desired[..i], installed, target, ToReplace)
      invariant skip == Chosen(desired[..i], installed, target, Skip)
      invariant forbidden == Chosen(desired[..i], installed, target, Forbidden)
    {
      var sel := desired[i];
      assert desired[..i + 1][..i] == desired[..i];
      if sel == DIAMOND_CUT_SELECTOR {
        forbidden := forbidden + [sel];
        continue;
      }
      if sel !in installed || installed[sel] == "" {
        add := add + [sel];
        continue;
      }
      if installed[sel] == target {
        skip := skip + [sel];
        continue;
      }
      replace := replace + [sel];
    }
    assert desired[..|desired|] == desired;
  }

  /** `a` is `b` with some elements left out. */
  predicate Subsequence(a: seq<string>, b: seq<string>)
    decreases |b|
  {
    || a == []
    || (b != [] && a[|a| - 1] == b[|b| - 1] && Subsequence(a[..|a| - 1], b[..|b| - 1]))
    || (b != [] && Subsequence(a, b[..|b| - 1]))
  }

  /** What the four lists hold, each in the order of the ABI: `diamondCut` is never touched, a selector without a
      route is added, one that is routed to the target is skipped, and one routed elsewhere is replaced. */
  ghost predicate Sorted(desired: seq<string>, installed: Table, target: string,
                         add: seq<string>, replace: seq<string>, skip: seq<string>, forbidden: seq<string>) {
    && (forall s :: s in add <==> s in desired && s != "0x1f931c1c" && (s in installed ==> installed[s] == ""))
    && (forall s :: s in skip <==>
          s in desired && s != "0x1f931c1c" && s in installed && installed[s] == target != "")
    && (forall s :: s in replace <==>
          s in desired && s != "0x1f931c1c" && s in installed && installed[s] != "" && installed[s] != target)
    && (forall s :: s in forbidden <==> s in desired && s == "0x1f931c1c")
    && |add| + |replace| + |skip| + |forbidden| == |desired|
    && Subsequence(add, desired) && Subsequence(replace, desired)
    && Subsequence(skip, desired) && Subsequence(forbidden, desired)
  }

  lemma {:induction false} ChosenInOrder(desired: seq<string>, t: Table, target: string, d: Decision)
    ensures Subsequence(Chosen(desired, t, target, d), desired)
  {
    if desired != [] {
      var front, all := Chosen(desired[..|desired| - 1], t, target, d), Chosen(desired, t, target, d);
      ChosenInOrder(desired[..|desired| - 1], t, target, d);
      if all != front { assert all[..|all| - 1] == front; }
    }
  }

  lemma {:induction false} ChosenOnce(desired: seq<string>, t: Table, target: string)
    ensures |Chosen(desired, t, target, ToAdd)| + |Chosen(desired, t, target, ToReplace)|
            + |Chosen(desired, t, target, Skip)| + |Chosen(desired, t, target, Forbidden)| == |desired|
  {
    if desired != [] { ChosenOnce(desired[..|desired| - 1], t, target); }
  }

  lemma FourLists(desired: seq<string>, t: Table, target: string)
    ensures Sorted(desired, t, target, Chosen(desired, t, target, ToAdd), Chosen(desired, t, target, ToReplace),
                   Chosen(desired, t, target, Skip), Chosen(desired, t, target, Forbidden))
  {
    ChosenMembers(desired, t, target, ToAdd);
    ChosenMembers(desired, t, target, ToReplace);
    ChosenMembers(desired, t, target, Skip);
    ChosenMembers(desired, t, target, Forbidden);
    ChosenInOrder(desired, t, target, ToAdd);
    ChosenInOrder(desired, t, target, ToReplace);
    ChosenInOrder(desired, t, target, Skip);
    ChosenInOrder(desired, t, target, Forbidden);
    ChosenOnce(desired, t, target);
  }

  /** Replace first, then Add, each only when it has selectors. */
  function CutsOf(replace: seq<string>, add: seq<string>, target: string): seq<Cut> {
    (if replace == [] then [] else [Cut(target, Replace, replace)])
    + if add == [] then [] else [Cut(target, Add, add)]
  }

  /** The cuts sent for one facet. */
  function CutsFor(t: Table, p: Plan): seq<Cut> {
    var desired, target := Distinct(p.selectors), Lower(p.facet);
    CutsOf(Chosen(desired, t, target, ToReplace), Chosen(desired, t, target, ToAdd), target)
  }

  /** All cuts of a run. */
  function CutsOfRun(t: Table, plans: seq<Plan>): seq<Cut> {
    if plans == [] then []
    else
      var front := CutsOfRun(t, plans[..|plans| - 1]);
      front + CutsFor(ApplyAll(t, front), plans[|plans| - 1])
  }

  // ---- The run ----

  class DiamondUpgrade {
    /** The diamond's selector table, which only accepted cuts change. */
    var chain: Table
    var installed: Table
    ghost var cuts: seq<Cut>

    constructor (onChain: Table)
      ensures chain == onChain && cuts == []
    {
      chain, installed, cuts := onChain, map[], [];
    }

    /** A cut transaction; the diamond would revert an illegal one. */
    method DiamondCutTx(cut: Cut)
      requires Legal(chain, cut)
      modifies this`chain, this`cuts
      ensures chain == Apply(old(chain), cut) && cuts == old(cuts) + [cut]
    {
      var t := chain;
      for i := 0 to |cut.selectors|
        invariant t == RouteAll(chain, cut.selectors[..i], cut.facet)
      {
        assert cut.selectors[..i + 1][..i] == cut.selectors[..i];
        t := t[cut.selectors[i] := cut.facet];
      }
      assert cut.selectors[..|cut.selectors|] == cut.selectors;
      chain := t;
      cuts := cuts + [cut];
    }

    method Record(selectors: seq<string>, facet: string)
      modifies this`installed
      ensures installed == RouteAll(old(installed), selectors, facet)
    {
      for i := 0 to |selectors|
        invariant installed == RouteAll(old(installed), selectors[..i], facet)
      {
        assert selectors[..i + 1][..i] == selectors[..i];
        installed := installed[selectors[i] := facet];
      }
      assert selectors[..|selectors|] == selectors;
    }

    method SendCuts(replace: seq<string>, add: seq<string>, target: string)
      requires installed == chain
      requires replace != [] ==> Legal(chain, Cut(target, Replace, replace))
      requires add != [] ==> Legal(RouteAll(chain, replace, target), Cut(target, Add, add))
      modifies this
      ensures installed == chain == RouteAll(RouteAll(old(chain), replace, target), add, target)
      ensures cuts == old(cuts) + CutsOf(replace, add, target)
    {
      if |replace| > 0 {
        DiamondCutTx(Cut(target, Replace, replace));
        Record(replace, target);
      }
      if |add| > 0 {
        DiamondCutTx(Cut(target, Add, add));
        Record(add, target);
      }
    }

    method UpgradeFacet(p: Plan)
      requires installed == chain && Sound(chain) && GoodPlan(p)
      modifies this
      ensures installed == chain == ApplyAll(old(chain), CutsFor(old(chain), p))
      ensures cuts == old(cuts) + CutsFor(old(chain), p)
    {
      var add, replace, skip, forbidden := PlanCutsForFacet(Distinct(p.selectors), installed, p.facet);
      ChosenCutsLegal(chain, p);
      ApplyTwo(chain, replace, add, Lower(p.facet));
      SendCuts(replace, add, Lower(p.facet));
    }

    method ReadLoupe(facets: seq<Facet>)
      requires Lists(facets, chain)
      modifies this`installed
      ensures installed == chain
    {
      installed := GetInstalledSelectors(facets);
      ListedIsTable(facets, chain);
    }

    method UpgradeAll(plans: seq<Plan>)
      requires installed == chain && Sound(chain) && GoodPlans(plans)
      modifies this
      ensures installed == chain == ApplyAll(old(chain), CutsOfRun(old(chain), plans))
      ensures cuts == old(cuts) + CutsOfRun(old(chain), plans)
    {
      ghost var start, sent := chain, cuts;
      assert plans[..0] == [];
      for i := 0 to |plans|
        invariant installed == chain && Sound(chain)
        invariant Reached(start, plans, i, chain, sent, cuts)
      {
        NextPlan(start, plans, i, chain, sent, cuts);
        UpgradeFacet(plans[i]);
      }
      assert plans[..|plans|] == plans;
    }

    method Upgrade(facets: seq<Facet>, plans: seq<Plan>)
      requires Lists(facets, chain) && Sound(chain) && GoodPlans(plans)
      modifies this
      ensures installed == chain == ApplyAll(old(chain), CutsOfRun(old(chain), plans))
      ensures cuts == old(cuts) + CutsOfRun(old(chain), plans)
    {
      ReadLoupe(facets);
      UpgradeAll(plans);
    }
  }

  // ---- The loupe ----

  datatype Facet = Facet(facetAddress: string, functionSelectors: seq<string>)

  function FromFacets(facets: seq<Facet>): Table {
    if facets == [] then map[]
    else
      var f := facets[|facets| - 1];
      RouteAll(FromFacets(facets[..|facets| - 1]), f.functionSelectors, Lower(f.facetAddress))
  }

  method GetInstalledSelectors(facets: seq<Facet>) returns (m: Table)
    ensures m == FromFacets(facets)
  {
    m := map[];
    for i := 0 to |facets|
      invariant m == FromFacets(facets[..i])
    {
      assert facets[..i + 1][..i] == facets[..i];
      var f, before := facets[i], m;
      for j := 0 to |f.functionSelectors|
        invariant m == RouteAll(before, f.functionSelectors[..j], Lower(f.facetAddress))
      {
        assert f.functionSelectors[..j + 1][..j] == f.functionSelectors[..j];
        m := m[f.functionSelectors[j] := Lower(f.facetAddress)];
      }
      assert f.functionSelectors[..|f.functionSelectors|] == f.functionSelectors;
    }
    assert facets[..|facets|] == facets;
  }

  /** The loupe lists each installed selector under its facet, and nothing else. */
  ghost predicate Lists(facets: seq<Facet>, chain: Table) {
    && (forall f :: f in facets ==>
          forall s :: s in f.functionSelectors ==> s in chain && chain[s] == Lower(f.facetAddress))
    && (forall s :: s in chain ==> exists f :: f in facets && s in f.functionSelectors)
  }

  /** Routes never lead to the zero address. */
  ghost predicate Sound(t: Table) {
    forall s :: s in t ==> t[s] != "" && t[s] != ZERO
  }

  ghost predicate GoodPlan(p: Plan) {
    Lower(p.facet) != "" && Lower(p.facet) != ZERO
  }

  lemma {:induction false} RouteAllLookup(t: Table, selectors: seq<string>, facet: string, s: string)
    ensures Lookup(RouteAll(t, selectors, facet), s) == if s in selectors then Some(facet) else Lookup(t, s)
  {
    if selectors != [] {
      RouteAllLookup(t, selectors[..|selectors| - 1], facet, s);
      assert selectors == selectors[..|selectors| - 1] + [selectors[|selectors| - 1]];
    }
  }

  lemma {:induction false} FromFacetsLookup(facets: seq<Facet>, chain: Table, s: string)
    requires forall f :: f in facets ==>
      forall s :: s in f.functionSelectors ==> s in chain && chain[s] == Lower(f.facetAddress)
    ensures Lookup(FromFacets(facets), s) ==
      if exists f :: f in facets && s in f.functionSelectors then Lookup(chain, s) else None
  {
    if facets != [] {
      var front, f := facets[..|facets| - 1], facets[|facets| - 1];
      assert facets == front + [f];
      FromFacetsLookup(front, chain, s);
      RouteAllLookup(FromFacets(front), f.functionSelectors, Lower(f.facetAddress), s);
    }
  }

  /** What is read through the loupe is the table. */
  lemma ListedIsTable(facets: seq<Facet>, chain: Table)
    requires Lists(facets, chain)
    ensures FromFacets(facets) == chain
  {
    forall s ensures Lookup(FromFacets(facets), s) == Lookup(chain, s) {
      FromFacetsLookup(facets, chain, s);
    }
    MapsEqual(FromFacets(facets), chain);
  }

  // ---- Legality and effect of one plan ----

  lemma {:induction false} DistinctIsNoDup(s: seq<string>)
    ensures NoDup(Distinct(s)) && forall x :: x in Distinct(s) <==> x in s
  {
    if s != [] {
      DistinctIsNoDup(s[..|s| - 1]);
      assert s == s[..|s| - 1] + [s[|s| - 1]];
    }
  }

  lemma {:induction false} ChosenMembers(desired: seq<string>, t: Table, target: string, d: Decision)
    ensures forall s :: s in Chosen(desired, t, target, d) <==> s in desired && Classify(s, t, target) == d
  {
    if desired != [] {
      ChosenMembers(desired[..|desired| - 1], t, target, d);
      assert desired == desired[..|desired| - 1] + [desired[|desired| - 1]];
    }
  }

  lemma {:induction false} ChosenIsNoDup(desired: seq<string>, t: Table, target: string, d: Decision)
    requires NoDup(desired)
    ensures NoDup(Chosen(desired, t, target, d))
  {
    if desired != [] {
      var front, last := desired[..|desired| - 1], desired[|desired| - 1];
      ChosenMembers(front, t, target, d);
      ChosenIsNoDup(front, t, target, d);
      assert last !in front;
    }
  }

  lemma ApplyOne(t: Table, cut: Cut)
    ensures ApplyAll(t, [cut]) == Apply(t, cut)
    ensures AllLegal(t, [cut]) <==> Legal(t, cut)
  {
    assert [cut][..0] == [];
  }

  lemma {:induction false} ApplyAllConcat(t: Table, a: seq<Cut>, b: seq<Cut>)
    ensures ApplyAll(t, a + b) == ApplyAll(ApplyAll(t, a), b)
    ensures AllLegal(t, a + b) <==> AllLegal(t, a) && AllLegal(ApplyAll(t, a), b)
  {
    if b == [] {
      assert a + b == a;
    } else {
      ApplyAllConcat(t, a, b[..|b| - 1]);
      assert (a + b)[..|a + b| - 1] == a + b[..|b| - 1];
    }
  }

  lemma ApplyTwo(t: Table, replace: seq<string>, add: seq<string>, target: string)
    ensures ApplyAll(t, CutsOf(replace, add, target)) == RouteAll(RouteAll(t, replace, target), add, target)
  {
    var r, a := Cut(target, Replace, replace), Cut(target, Add, add);
    var rs, as_ := if replace == [] then [] else [r], if add == [] then [] else [a];
    ApplyAllConcat(t, rs, as_);
    ApplyOne(t, r);
    ApplyOne(RouteAll(t, replace, target), a);
  }

  predicate Wants(p: Plan, s: string) {
    s in p.selectors && s != DIAMOND_CUT_SELECTOR
  }

  /** One plan routes what it wants, except `diamondCut`, to its facet and leaves the rest alone. */
  lemma PlanRoutes(t: Table, p: Plan, s: string)
    requires Sound(t)
    ensures Lookup(ApplyAll(t, CutsFor(t, p)), s) == if Wants(p, s) then Some(Lower(p.facet)) else Lookup(t, s)
  {
    var desired, target := Distinct(p.selectors), Lower(p.facet);
    var replace, add := Chosen(desired, t, target, ToReplace), Chosen(desired, t, target, ToAdd);
    DistinctIsNoDup(p.selectors);
    ApplyTwo(t, replace, add, target);
    RouteAllLookup(RouteAll(t, replace, target), add, target, s);
    RouteAllLookup(t, replace, target, s);
    ChosenMembers(desired, t, target, ToReplace);
    ChosenMembers(desired, t, target, ToAdd);
  }

  lemma ChosenCutsLegal(t: Table, p: Plan)
    requires Sound(t) && GoodPlan(p)
    ensures var desired, target := Distinct(p.selectors), Lower(p.facet);
      var replace, add := Chosen(desired, t, target, ToReplace), Chosen(desired, t, target, ToAdd);
      && (replace != [] ==> Legal(t, Cut(target, Replace, replace)))
      && (add != [] ==> Legal(RouteAll(t, replace, target), Cut(target, Add, add)))
  {
    var desired, target := Distinct(p.selectors), Lower(p.facet);
    var replace, add := Chosen(desired, t, target, ToReplace), Chosen(desired, t, target, ToAdd);
    DistinctIsNoDup(p.selectors);
    ChosenIsNoDup(desired, t, target, ToReplace);
    ChosenIsNoDup(desired, t, target, ToAdd);
    ChosenMembers(desired, t, target, ToReplace);
    ChosenMembers(desired, t, target, ToAdd);
    var t1 := RouteAll(t, replace, target);
    forall s | s in add ensures s !in t1 {
      RouteAllLookup(t, replace, target, s);
    }
  }

  lemma PlannedCutsLegal(t: Table, p: Plan)
    requires Sound(t) && GoodPlan(p)
    ensures AllLegal(t, CutsFor(t, p))
  {
    var desired, target := Distinct(p.selectors), Lower(p.facet);
    var replace, add := Chosen(desired, t, target, ToReplace), Chosen(desired, t, target, ToAdd);
    var r, a := Cut(target, Replace, replace), Cut(target, Add, add);
    ChosenCutsLegal(t, p);
    ApplyAllConcat(t, if replace == [] then [] else [r], if add == [] then [] else [a]);
    ApplyOne(t, r);
    ApplyOne(Apply(t, r), a);
    ApplyOne(t, a);
    assert replace == [] ==> Apply(t, r) == t;
  }

  lemma PlanKeepsSound(t: Table, p: Plan)
    requires Sound(t) && GoodPlan(p)
    ensures Sound(ApplyAll(t, CutsFor(t, p)))
  {
    var after := ApplyAll(t, CutsFor(t, p));
    forall s | s in after ensures after[s] != "" && after[s] != ZERO {
      PlanRoutes(t, p, s);
      assert Lookup(after, s) == Some(after[s]);
    }
  }

  /** The state before the i-th plan of a run. */
  ghost predicate Reached(t: Table, plans: seq<Plan>, i: nat, now: Table, sent: seq<Cut>, cuts: seq<Cut>)
    requires i <= |plans|
  {
    now == ApplyAll(t, CutsOfRun(t, plans[..i])) && cuts == sent + CutsOfRun(t, plans[..i])
  }

  lemma NextPlan(t: Table, plans: seq<Plan>, i: nat, now: Table, sent: seq<Cut>, cuts: seq<Cut>)
    requires i < |plans| && Reached(t, plans, i, now, sent, cuts) && Sound(now) && GoodPlans(plans)
    ensures Reached(t, plans, i + 1, ApplyAll(now, CutsFor(now, plans[i])), sent, cuts + CutsFor(now, plans[i]))
    ensures GoodPlan(plans[i]) && Sound(ApplyAll(now, CutsFor(now, plans[i])))
  {
    assert plans[..i + 1][..i] == plans[..i];
    var front, next := CutsOfRun(t, plans[..i]), CutsFor(now, plans[i]);
    ApplyAllConcat(t, front, next);
    assert sent + (front + next) == sent + front + next;
    PlanKeepsSound(now, plans[i]);
  }

  // ---- Main results ----

  /** The facet of the last plan that wants a selector, or its old route. */
  function FinalRoute(t: Table, plans: seq<Plan>, s: string): Option<string> {
    if plans == [] then Lookup(t, s)
    else if Wants(plans[|plans| - 1], s) then Some(Lower(plans[|plans| - 1].facet))
    else FinalRoute(t, plans[..|plans| - 1], s)
  }

  ghost predicate GoodPlans(plans: seq<Plan>) {
    forall p :: p in plans ==> GoodPlan(p)
  }

  /** Every cut of an upgrade run is legal when it is sent, and afterwards each selector has its final route. */
  lemma {:induction false} UpgradeRun(t: Table, plans: seq<Plan>)
    requires Sound(t) && GoodPlans(plans)
    ensures AllLegal(t, CutsOfRun(t, plans)) && Sound(ApplyAll(t, CutsOfRun(t, plans)))
    ensures forall s :: Lookup(ApplyAll(t, CutsOfRun(t, plans)), s) == FinalRoute(t, plans, s)
  {
    if plans != [] {
      var front, p := plans[..|plans| - 1], plans[|plans| - 1];
      UpgradeRun(t, front);
      var cuts := CutsOfRun(t, front);
      var t1 := ApplyAll(t, cuts);
      ApplyAllConcat(t, cuts, CutsFor(t1, p));
      PlannedCutsLegal(t1, p);
      PlanKeepsSound(t1, p);
      forall s ensures Lookup(ApplyAll(t, CutsOfRun(t, plans)), s) == FinalRoute(t, plans, s) {
        PlanRoutes(t1, p, s);
      }
    }
  }

  /** A cut of a plan: of its facet in lower case, and of the selectors that are routed nowhere or elsewhere. */
  ghost predicate CutMeans(t: Table, p: Plan, cut: Cut) {
    && InLowerCase(cut.facet, p.facet) && cut.selectors != [] && NoDup(cut.selectors)
    && forall s :: s in cut.selectors <==>
         && s in p.selectors && s != "0x1f931c1c"
         && (if cut.action == Add then s !in t else s in t && t[s] != cut.facet)
  }

  /** The cuts of one plan: at most a Replace and an Add, in this order; `diamondCut` is in neither. */
  lemma CutsMean(t: Table, p: Plan)
    requires Sound(t)
    ensures var cuts := CutsFor(t, p);
      && |cuts| <= 2 && (|cuts| == 2 ==> cuts[0].action == Replace && cuts[1].action == Add)
      && forall i :: 0 <= i < |cuts| ==> CutMeans(t, p, cuts[i])
  {
    var desired, target := Distinct(p.selectors), Lower(p.facet);
    var replace, add := Chosen(desired, t, target, ToReplace), Chosen(desired, t, target, ToAdd);
    if replace != [] { ReplaceMeans(t, p); }
    if add != [] { AddMeans(t, p); }
  }

  lemma ReplaceMeans(t: Table, p: Plan)
    requires Sound(t) && Chosen(Distinct(p.selectors), t, Lower(p.facet), ToReplace) != []
    ensures var target := Lower(p.facet);
      CutMeans(t, p, Cut(target, Replace, Chosen(Distinct(p.selectors), t, target, ToReplace)))
  {
    LowerIs(p.facet);
    DistinctIsNoDup(p.selectors);
    ChosenMembers(Distinct(p.selectors), t, Lower(p.facet), ToReplace);
    ChosenIsNoDup(Distinct(p.selectors), t, Lower(p.facet), ToReplace);
  }

  lemma AddMeans(t: Table, p: Plan)
    requires Sound(t) && Chosen(Distinct(p.selectors), t, Lower(p.facet), ToAdd) != []
    ensures var target := Lower(p.facet);
      CutMeans(t, p, Cut(target, Add, Chosen(Distinct(p.selectors), t, target, ToAdd)))
  {
    LowerIs(p.facet);
    DistinctIsNoDup(p.selectors);
    ChosenMembers(Distinct(p.selectors), t, Lower(p.facet), ToAdd);
    ChosenIsNoDup(Distinct(p.selectors), t, Lower(p.facet), ToAdd);
  }

  /** What a selector is routed to in the end: the facet of the last plan that lists it, or what it was before when no
      plan does; and `diamondCut` never moves. */
  lemma RoutesInTheEnd(t: Table, plans: seq<Plan>, s: string, i: nat)
    requires Sound(t) && GoodPlans(plans)
    ensures var after := ApplyAll(t, CutsOfRun(t, plans));
      && (s != "0x1f931c1c" && i < |plans| && s in plans[i].selectors
          && (forall j :: i < j < |plans| ==> s !in plans[j].selectors) ==>
            s in after && InLowerCase(after[s], plans[i].facet))
      && (s == "0x1f931c1c" || (forall j :: 0 <= j < |plans| ==> s !in plans[j].selectors) ==>
            Lookup(after, s) == Lookup(t, s))
  {
    UpgradeRun(t, plans);
    if s != "0x1f931c1c" && i < |plans| && s in plans[i].selectors
       && forall j :: i < j < |plans| ==> s !in plans[j].selectors {
      LastPlanDecides(t, plans, s, i);
      LowerIs(plans[i].facet);
    }
    if s == "0x1f931c1c" || forall j :: 0 <= j < |plans| ==> s !in plans[j].selectors { UnwantedStays(t, plans, s); }
  }

  lemma {:induction false} LastPlanDecides(t: Table, plans: seq<Plan>, s: string, i: nat)
    requires i < |plans| && Wants(plans[i], s) && forall j :: i < j < |plans| ==> s !in plans[j].selectors
    ensures FinalRoute(t, plans, s) == Some(Lower(plans[i].facet))
  {
    if i < |plans| - 1 { LastPlanDecides(t, plans[..|plans| - 1], s, i); }
  }

  lemma {:induction false} UnwantedStays(t: Table, plans: seq<Plan>, s: string)
    requires forall j :: 0 <= j < |plans| ==> !Wants(plans[j], s)
    ensures FinalRoute(t, plans, s) == Lookup(t, s)
  {
    if plans != [] { UnwantedStays(t, plans[..|plans| - 1], s); }
  }

  /** The route of `diamondCut` never moves. */
  lemma {:induction false} DiamondCutNeverMoves(t: Table, plans: seq<Plan>)
    requires Sound(t) && GoodPlans(plans)
    ensures Lookup(ApplyAll(t, CutsOfRun(t, plans)), "0x1f931c1c") == Lookup(t, "0x1f931c1c")
  {
    UpgradeRun(t, plans);
    DiamondCutHasOldRoute(t, plans);
  }

  lemma {:induction false} DiamondCutHasOldRoute(t: Table, plans: seq<Plan>)
    ensures FinalRoute(t, plans, DIAMOND_CUT_SELECTOR) == Lookup(t, DIAMOND_CUT_SELECTOR)
  {
    if plans != [] { DiamondCutHasOldRoute(t, plans[..|plans| - 1]); }
  }

  /** All that a plan wants is at its facet already. */
  ghost predicate AtHome(t: Table, p: Plan) {
    forall s :: Wants(p, s) ==> Lookup(t, s) == Some(Lower(p.facet))
  }

  /** A plan sends nothing exactly when all it wants is at its facet already. */
  lemma NoCutsIff(t: Table, p: Plan)
    requires Sound(t)
    ensures CutsFor(t, p) == [] <==> AtHome(t, p)
  {
    var desired, target := Distinct(p.selectors), Lower(p.facet);
    var replace, add := Chosen(desired, t, target, ToReplace), Chosen(desired, t, target, ToAdd);
    DistinctIsNoDup(p.selectors);
    ChosenMembers(desired, t, target, ToReplace);
    ChosenMembers(desired, t, target, ToAdd);
    if CutsFor(t, p) != [] {
      var s := if replace != [] then replace[0] else add[0];
      assert s in replace || s in add;
      assert Wants(p, s) && Lookup(t, s) != Some(target);
    } else {
      forall s | Wants(p, s) ensures Lookup(t, s) == Some(target) {
        assert s !in replace && s !in add;
      }
    }
  }

  lemma {:induction false} NoCutsInRunIff(t: Table, plans: seq<Plan>)
    requires Sound(t)
    ensures CutsOfRun(t, plans) == [] <==> forall p :: p in plans ==> AtHome(t, p)
  {
    if plans != [] {
      var front, p := plans[..|plans| - 1], plans[|plans| - 1];
      assert plans == front + [p];
      NoCutsInRunIff(t, front);
      NoCutsIff(t, p);
    }
  }

  /** No selector is wanted for two different facets. */
  ghost predicate NoConflict(plans: seq<Plan>) {
    forall p, q :: p in plans && q in plans ==>
      forall s :: Wants(p, s) && Wants(q, s) ==> Lower(p.facet) == Lower(q.facet)
  }

  lemma {:induction false} SomeLastPlan(t: Table, plans: seq<Plan>, p: Plan, s: string) returns (q: Plan)
    requires p in plans && Wants(p, s)
    ensures q in plans && Wants(q, s) && FinalRoute(t, plans, s) == Some(Lower(q.facet))
  {
    var front, last := plans[..|plans| - 1], plans[|plans| - 1];
    assert plans == front + [last];
    if Wants(last, s) { q := last; } else { q := SomeLastPlan(t, front, p, s); }
  }

  /** Running the same upgrade again sends no cut exactly when no selector is wanted for two different facets. */
  lemma SecondRunIsQuietIff(t: Table, plans: seq<Plan>)
    requires Sound(t) && GoodPlans(plans)
    ensures var after := ApplyAll(t, CutsOfRun(t, plans));
      CutsOfRun(after, plans) == [] <==> NoConflict(plans)
  {
    var after := ApplyAll(t, CutsOfRun(t, plans));
    UpgradeRun(t, plans);
    NoCutsInRunIff(after, plans);
    if NoConflict(plans) {
      forall p | p in plans ensures AtHome(after, p) {
        forall s | Wants(p, s) ensures Lookup(after, s) == Some(Lower(p.facet)) {
          var q := SomeLastPlan(t, plans, p, s);
        }
      }
    }
  }
}
