/**
 * Filling external library addresses into solc creation code
 * (src/linkBeamioUserCardBytecode.ts). Hashing a qualified library name and
 * checking an address are parameters.
 */
module Linker {
  import opened Common
  import opened Text

  datatype LinkError = MissingAddress(name: string) | InvalidAddress(name: string) | PlaceholderNotFound(name: string)

  predicate LowerHex(s: string) {
    forall c :: c in s ==> IsHexDigit(c) && LowerChar(c) == c
  }

  type Hash34 = h: string | |h| == 34 && LowerHex(h) witness seq(34, _ => '0')

  type Address40 = a: string | |a| == 40 && LowerHex(a) witness seq(40, _ => '0')

  function Placeholder(h: string): (p: string)
    ensures p != ""
  {
    "__$" + h + "$__"
  }

  /** One library to be linked: its name, the hash of its qualified name, and its address when there is a valid one. */
  datatype Library = Library(name: string, hash: Hash34, address: Result<Address40, LinkError>)

  /** One turn of the loop. */
  function LinkOne(b: string, lib: Library): Result<string, LinkError> {
    if lib.address.Err? then Err(lib.address.error)
    else
      var parts := Split(Lower(b), Placeholder(lib.hash));
      if |parts| < 2 then Err(PlaceholderNotFound(lib.name)) else Ok(Join(parts, lib.address.value))
  }

  function LinkAll(b: string, libs: seq<Library>): Result<string, LinkError>
    decreases |libs|
  {
    if libs == [] then Ok(b)
    else
      var r := LinkOne(b, libs[0]);
      if r.Err? then r else LinkAll(r.value, libs[1..])
  }

  // ---- Templates as token lists ----

  datatype Token = Digit(c: char) | Slot(hash: string)

  predicate IsHash(h: string) {
    |h| == 34 && forall c :: c in h ==> IsHexDigit(c)
  }

  predicate WellFormedToken(t: Token) {
    match t
    case Digit(c) => IsHexDigit(c)
    case Slot(h) => IsHash(h)
  }

  /** Hex digits and 40-character placeholders, nothing else. */
  predicate WellFormed(ts: seq<Token>) {
    forall t :: t in ts ==> WellFormedToken(t)
  }

  function TextOf(t: Token): string {
    match t
    case Digit(c) => [c]
    case Slot(h) => Placeholder(h)
  }

  function Flatten(ts: seq<Token>): string {
    if ts == [] then "" else TextOf(ts[0]) + Flatten(ts[1..])
  }

  function LowerToken(t: Token): Token {
    match t
    case Digit(c) => Digit(LowerChar(c))
    case Slot(h) => Slot(Lower(h))
  }

  function LowerTokens(ts: seq<Token>): seq<Token> {
    if ts == [] then [] else [LowerToken(ts[0])] + LowerTokens(ts[1..])
  }

  function Digits(s: string): seq<Token> {
    if s == "" then [] else [Digit(s[0])] + Digits(s[1..])
  }

  function FillToken(t: Token, m: map<string, string>): seq<Token> {
    if t.Slot? && t.hash in m then Digits(m[t.hash]) else [t]
  }

  /** Every slot that `m` knows becomes the digits of its address; all other tokens stay. */
  function Fill(ts: seq<Token>, m: map<string, string>): seq<Token> {
    if ts == [] then [] else FillToken(ts[0], m) + Fill(ts[1..], m)
  }

  lemma {:induction false} FlattenConcat(a: seq<Token>, b: seq<Token>)
    ensures Flatten(a + b) == Flatten(a) + Flatten(b)
  {
    if a == [] {
      assert a + b == b;
    } else {
      assert a == [a[0]] + a[1..];
      assert a + b == [a[0]] + (a[1..] + b);
      FlattenConcat(a[1..], b);
      FlattenStep(a[0], a[1..], a[1..] + b, Flatten(b));
    }
  }

  lemma FlattenStep(t: Token, u: seq<Token>, v: seq<Token>, z: string)
    requires Flatten(v) == Flatten(u) + z
    ensures Flatten([t] + v) == Flatten([t] + u) + z
  {
    FlattenCons(t, u);
    FlattenCons(t, v);
    Assoc(TextOf(t), Flatten(u), z);
  }

  lemma FlattenCons(t: Token, ts: seq<Token>)
    ensures Flatten([t] + ts) == TextOf(t) + Flatten(ts)
  {
    assert ([t] + ts)[1..] == ts;
  }

  lemma {:induction false} FlattenDigits(s: string)
    ensures Flatten(Digits(s)) == s
    ensures (forall c :: c in s ==> IsHexDigit(c)) ==> WellFormed(Digits(s))
    ensures forall t :: t in Digits(s) ==> t.Digit?
  {
    if s != "" {
      FlattenDigits(s[1..]);
      assert s == [s[0]] + s[1..];
    }
  }

  /** A template starts with a digit or with two underscores. */
  lemma FirstCharacters(ts: seq<Token>)
    requires WellFormed(ts)
    ensures var s := Flatten(ts);
      s != "" ==> IsHexDigit(s[0]) || (|s| >= 2 && s[0] == '_' && s[1] == '_')
  {
    if ts != [] { assert ts[0] in ts && WellFormedToken(ts[0]); }
  }

  /** A placeholder can start in a slot only at its first character, and there only if the hashes agree. */
  lemma PlaceholderOnlyAtSlotStart(h: string, g: string, ts: seq<Token>, i: nat)
    requires IsHash(h) && IsHash(g) && WellFormed(ts)
    requires i < 40 && (i > 0 || g != h)
    ensures !StartsWith(Placeholder(h)[i..] + Flatten(ts), Placeholder(g))
  {
    var r := Flatten(ts);
    var s, p := Placeholder(h)[i..] + r, Placeholder(g);
    FirstCharacters(ts);
    if i == 0 {
      var j :| 0 <= j < 34 && g[j] != h[j];
      Mismatch(s, p, 3 + j);
    } else if i == 1 {
      Mismatch(s, p, 1);
    } else if i == 2 || i == 37 {
      Mismatch(s, p, 0);
    } else if i < 37 {
      assert s[0] == h[i - 3] && h[i - 3] in h;
      Mismatch(s, p, 0);
    } else if i == 38 {
      assert |s| > 2 ==> s[2] == r[0];
      Mismatch(s, p, 2);
    } else {
      assert |s| > 1 ==> s[1] == r[0];
      assert |s| > 2 ==> s[2] == r[1];
      Mismatch(s, p, if r == "" || r[0] != '_' then 1 else 2);
    }
  }

  /** Nowhere in a token other than the wanted slot does its placeholder start. */
  lemma PlaceholderNotHere(t: Token, g: string, ts: seq<Token>, i: nat)
    requires WellFormedToken(t) && IsHash(g) && WellFormed(ts) && t != Slot(g)
    requires i < |TextOf(t)|
    ensures !StartsWith(TextOf(t)[i..] + Flatten(ts), Placeholder(g))
  {
    match t
    case Digit(c) => Mismatch(TextOf(t)[i..] + Flatten(ts), Placeholder(g), 0);
    case Slot(h) => PlaceholderOnlyAtSlotStart(h, g, ts, i);
  }

  /** Splitting at one library's placeholder finds exactly its slots. */
  lemma {:induction false} ReplaceFillsSlots(ts: seq<Token>, g: Hash34, a: string)
    requires WellFormed(ts)
    ensures ReplaceAll(Flatten(ts), Placeholder(g), a) == Flatten(Fill(ts, map[g := a]))
    ensures Occurs(Flatten(ts), Placeholder(g)) <==> Slot(g) in ts
  {
    if ts != [] {
      var t, rest := ts[0], ts[1..];
      assert t in ts && ts == [t] + rest;
      ReplaceFillsSlots(rest, g, a);
      if t == Slot(g) {
        SlotReplaced(g, Flatten(rest), a);
        FlattenDigits(a);
        FlattenConcat(Digits(a), Fill(rest, map[g := a]));
      } else {
        forall i | 0 <= i < |TextOf(t)| ensures !StartsWith(TextOf(t)[i..] + Flatten(rest), Placeholder(g)) {
          PlaceholderNotHere(t, g, rest, i);
        }
        ReplaceAllSkips(TextOf(t), Flatten(rest), Placeholder(g), a);
        FlattenConcat([t], Fill(rest, map[g := a]));
        assert Flatten([t]) == TextOf(t);
      }
    }
  }

  lemma SlotReplaced(g: string, rest: string, a: string)
    ensures ReplaceAll(Placeholder(g) + rest, Placeholder(g), a) == a + ReplaceAll(rest, Placeholder(g), a)
    ensures Occurs(Placeholder(g) + rest, Placeholder(g))
  {
    var p := Placeholder(g);
    var s := p + rest;
    assert s[|p|..] == rest && s[0..] == s && StartsWith(s[0..], p);
  }

  // ---- Case folding and filling on tokens ----

  lemma LowerConcat(a: string, b: string)
    ensures Lower(a + b) == Lower(a) + Lower(b)
  {
  }

  lemma LowerTokenText(t: Token)
    requires WellFormedToken(t)
    ensures Lower(TextOf(t)) == TextOf(LowerToken(t)) && WellFormedToken(LowerToken(t))
    ensures LowerToken(LowerToken(t)) == LowerToken(t)
  {
    if t.Slot? {
      LowerConcat("__$" + t.hash, "$__");
      LowerConcat("__$", t.hash);
      assert Lower("__$") == "__$" && Lower("$__") == "$__";
      var l := Lower(t.hash);
      forall c | c in l ensures IsHexDigit(c) {
        var i :| 0 <= i < |l| && l[i] == c;
        assert t.hash[i] in t.hash;
      }
      assert Lower(l) == l;
    }
  }

  lemma {:induction false} LowerFlatten(ts: seq<Token>)
    requires WellFormed(ts)
    ensures Lower(Flatten(ts)) == Flatten(LowerTokens(ts)) && WellFormed(LowerTokens(ts))
    ensures LowerTokens(LowerTokens(ts)) == LowerTokens(ts)
  {
    if ts != [] {
      assert ts[0] in ts && forall t :: t in ts[1..] ==> t in ts;
      LowerTokenText(ts[0]);
      LowerFlatten(ts[1..]);
      LowerConcat(TextOf(ts[0]), Flatten(ts[1..]));
      var l := LowerTokens(ts);
      assert l[0] == LowerToken(ts[0]) && l[1..] == LowerTokens(ts[1..]);
    }
  }

  ghost predicate Addresses(m: map<string, string>) {
    forall h :: h in m ==> |m[h]| == 40 && LowerHex(m[h])
  }

  lemma {:induction false} DigitsLower(s: string)
    requires LowerHex(s)
    ensures LowerTokens(Digits(s)) == Digits(s)
  {
    if s != "" {
      assert s[0] in s && forall c :: c in s[1..] ==> c in s;
      DigitsLower(s[1..]);
      assert Digits(s)[1..] == Digits(s[1..]);
    }
  }

  lemma TokensAssoc(a: seq<Token>, b: seq<Token>, c: seq<Token>)
    ensures (a + b) + c == a + (b + c)
  {
  }

  lemma {:induction false} LowerTokensConcat(a: seq<Token>, b: seq<Token>)
    ensures LowerTokens(a + b) == LowerTokens(a) + LowerTokens(b)
  {
    if a == [] {
      assert a + b == b;
    } else {
      var t, u := a[0], a[1..];
      LowerTokensConcat(u, b);
      assert (a + b)[0] == t && (a + b)[1..] == u + b;
      TokensAssoc([LowerToken(t)], LowerTokens(u), LowerTokens(b));
    }
  }

  lemma FillTokenFacts(t: Token, m: map<string, string>)
    requires Addresses(m) && WellFormedToken(t)
    ensures WellFormed(FillToken(t, m)) && |Flatten(FillToken(t, m))| == |TextOf(t)|
    ensures LowerToken(t) == t ==> LowerTokens(FillToken(t, m)) == FillToken(t, m)
    ensures forall h :: Slot(h) in FillToken(t, m) <==> t == Slot(h) && h !in m
  {
    if t.Slot? && t.hash in m {
      FlattenDigits(m[t.hash]);
      DigitsLower(m[t.hash]);
    } else {
      assert Flatten([t]) == TextOf(t) + Flatten([]) == TextOf(t);
      assert LowerTokens([t]) == [LowerToken(t)] + LowerTokens([]);
    }
  }

  /** Filling keeps templates well formed and lower case, keeps their length, and removes exactly the known slots. */
  lemma {:induction false} FillFacts(ts: seq<Token>, m: map<string, string>)
    requires WellFormed(ts) && Addresses(m)
    ensures WellFormed(Fill(ts, m)) && |Flatten(Fill(ts, m))| == |Flatten(ts)|
    ensures LowerTokens(ts) == ts ==> LowerTokens(Fill(ts, m)) == Fill(ts, m)
    ensures forall h :: Slot(h) in Fill(ts, m) <==> Slot(h) in ts && h !in m
  {
    if ts != [] {
      var t, rest := ts[0], ts[1..];
      assert t in ts && ts == [t] + rest;
      assert LowerTokens(ts)[0] == LowerToken(t) && LowerTokens(ts)[1..] == LowerTokens(rest);
      FillFacts(rest, m);
      FillTokenFacts(t, m);
      FlattenConcat(FillToken(t, m), Fill(rest, m));
      LowerTokensConcat(FillToken(t, m), Fill(rest, m));
    }
  }

  lemma {:induction false} FillConcat(a: seq<Token>, b: seq<Token>, m: map<string, string>)
    ensures Fill(a + b, m) == Fill(a, m) + Fill(b, m)
  {
    if a == [] {
      assert a + b == b;
    } else {
      var t, u := a[0], a[1..];
      FillConcat(u, b, m);
      assert (a + b)[0] == t && (a + b)[1..] == u + b;
      TokensAssoc(FillToken(t, m), Fill(u, m), Fill(b, m));
    }
  }

  lemma {:induction false} FillDigits(s: string, m: map<string, string>)
    ensures Fill(Digits(s), m) == Digits(s)
  {
    if s != "" {
      FillDigits(s[1..], m);
      assert Digits(s)[1..] == Digits(s[1..]);
    }
  }

  lemma {:induction false} FillTwice(ts: seq<Token>, h: string, a: string, m: map<string, string>)
    requires h !in m
    ensures Fill(Fill(ts, map[h := a]), m) == Fill(ts, m[h := a])
  {
    if ts != [] {
      var t, rest := ts[0], Fill(ts[1..], map[h := a]);
      FillTwice(ts[1..], h, a, m);
      FillConcat(FillToken(t, map[h := a]), rest, m);
      if t == Slot(h) { FillDigits(a, m); } else { assert Fill([t], m) == FillToken(t, m) + Fill([], m); }
    }
  }

  // ---- The loop over libraries ----

  ghost predicate Resolved(libs: seq<Library>) {
    forall l :: l in libs ==> l.address.Ok?
  }

  ghost predicate DistinctHashes(libs: seq<Library>) {
    NoDup(libs) && forall l, k :: l in libs && k in libs && l.hash == k.hash ==> l == k
  }

  /** Every library has an address and its own placeholder, and the template has a slot for it. */
  ghost predicate Linkable(ts: seq<Token>, libs: seq<Library>) {
    Resolved(libs) && DistinctHashes(libs) && forall l :: l in libs ==> Slot(l.hash) in ts
  }

  function AddressMap(libs: seq<Library>): map<string, string> {
    if libs == [] then map[]
    else
      var m := AddressMap(libs[1..]);
      if libs[0].address.Ok? then m[libs[0].hash := libs[0].address.value] else m
  }

  lemma AddressMapFacts(libs: seq<Library>)
    ensures Addresses(AddressMap(libs))
    ensures forall h :: h in AddressMap(libs) <==> exists l :: l in libs && l.hash == h && l.address.Ok?
    ensures DistinctHashes(libs) ==>
      forall l :: l in libs && l.address.Ok? ==> AddressMap(libs)[l.hash] == l.address.value
  {
    AddressMapKeys(libs);
    if DistinctHashes(libs) {
      forall l | l in libs && l.address.Ok? ensures AddressMap(libs)[l.hash] == l.address.value {
        AddressMapValue(libs, l);
      }
    }
  }

  lemma {:induction false} AddressMapKeys(libs: seq<Library>)
    ensures Addresses(AddressMap(libs))
    ensures forall h :: h in AddressMap(libs) <==> exists l :: l in libs && l.hash == h && l.address.Ok?
  {
    if libs != [] {
      AddressMapKeys(libs[1..]);
      assert libs == [libs[0]] + libs[1..];
    }
  }

  lemma {:induction false} AddressMapValue(libs: seq<Library>, l: Library)
    requires DistinctHashes(libs) && l in libs && l.address.Ok?
    ensures l.hash in AddressMap(libs) && AddressMap(libs)[l.hash] == l.address.value
  {
    DistinctTail(libs);
    assert libs == [libs[0]] + libs[1..];
    if l in libs[1..] { AddressMapValue(libs[1..], l); }
  }

  lemma DistinctTail(libs: seq<Library>)
    requires libs != []
    ensures DistinctHashes(libs) <==> DistinctHashes(libs[1..]) && forall l :: l in libs[1..] ==> l.hash != libs[0].hash
  {
    var rest := libs[1..];
    NoDupTail(libs);
    assert forall l :: l in libs <==> l == libs[0] || l in rest by { assert libs == [libs[0]] + rest; }
  }

  lemma LinkOneOnTokens(ts: seq<Token>, lib: Library)
    requires WellFormed(ts) && lib.address.Ok?
    ensures LinkOne(Flatten(ts), lib)
         == if Slot(lib.hash) in LowerTokens(ts)
            then Ok(Flatten(Fill(LowerTokens(ts), map[lib.hash := lib.address.value])))
            else Err(PlaceholderNotFound(lib.name))
  {
    LowerFlatten(ts);
    var low, p, a := LowerTokens(ts), Placeholder(lib.hash), lib.address.value;
    JoinSplit(Flatten(low), p, a);
    SplitFindsOccurrence(Flatten(low), p);
    ReplaceFillsSlots(low, lib.hash, a);
  }

  lemma {:induction false} LinkLowered(ts: seq<Token>, libs: seq<Library>)
    requires WellFormed(ts) && LowerTokens(ts) == ts
    ensures LinkAll(Flatten(ts), libs).Ok? <==> Linkable(ts, libs)
    ensures Linkable(ts, libs) ==> LinkAll(Flatten(ts), libs) == Ok(Flatten(Fill(ts, AddressMap(libs))))
    decreases |libs|
  {
    if libs == [] {
      FillNothing(ts);
    } else {
      var lib, rest := libs[0], libs[1..];
      assert lib in libs && libs == [lib] + rest;
      DistinctTail(libs);
      if lib.address.Ok? {
        LinkOneOnTokens(ts, lib);
        if Slot(lib.hash) in ts {
          var m := map[lib.hash := lib.address.value];
          var next := Fill(ts, m);
          FillFacts(ts, m);
          LinkLowered(next, rest);
          assert Linkable(next, rest) <==> Linkable(ts, libs);
          if Linkable(ts, libs) {
            AddressMapFacts(rest);
            FillTwice(ts, lib.hash, lib.address.value, AddressMap(rest));
          }
        }
      }
    }
  }

  lemma {:induction false} FillNothing(ts: seq<Token>)
    ensures Fill(ts, map[]) == ts
  {
    if ts != [] {
      FillNothing(ts[1..]);
      assert ts == [ts[0]] + ts[1..];
    }
  }

  // ---- Main results ----

  /** Linking succeeds exactly on a linkable template, and then replaces exactly the listed slots by
      the listed addresses; every other character is kept up to case. */
  lemma LinkReplacesExactlyTheSlots(ts: seq<Token>, libs: seq<Library>)
    requires WellFormed(ts) && libs != []
    ensures LinkAll(Flatten(ts), libs).Ok? <==> Linkable(LowerTokens(ts), libs)
    ensures Linkable(LowerTokens(ts), libs) ==>
      LinkAll(Flatten(ts), libs) == Ok(Flatten(Fill(LowerTokens(ts), AddressMap(libs))))
  {
    LowerFlatten(ts);
    assert LinkOne(Flatten(ts), libs[0]) == LinkOne(Flatten(LowerTokens(ts)), libs[0]) by {
      assert Lower(Flatten(LowerTokens(ts))) == Flatten(LowerTokens(ts)) by { LowerFlatten(LowerTokens(ts)); }
    }
    LinkLowered(LowerTokens(ts), libs);
  }

  /** Linked code is as long as the template, whatever the addresses, and no listed placeholder is left in it. */
  lemma LinkedCodeShape(ts: seq<Token>, libs: seq<Library>)
    requires WellFormed(ts) && LinkAll(Flatten(ts), libs).Ok?
    ensures |LinkAll(Flatten(ts), libs).value| == |Flatten(ts)|
    ensures forall l :: l in libs ==> !Occurs(LinkAll(Flatten(ts), libs).value, Placeholder(l.hash))
  {
    if libs != [] {
      LinkReplacesExactlyTheSlots(ts, libs);
      LowerFlatten(ts);
      AddressMapFacts(libs);
      var m := AddressMap(libs);
      FillFacts(LowerTokens(ts), m);
      assert |Flatten(LowerTokens(ts))| == |Lower(Flatten(ts))|;
      forall l | l in libs ensures !Occurs(Flatten(Fill(LowerTokens(ts), m)), Placeholder(l.hash)) {
        ReplaceFillsSlots(Fill(LowerTokens(ts), m), l.hash, "");
      }
    }
  }

  /** The order of the libraries does not matter. */
  lemma LinkOrderIrrelevant(ts: seq<Token>, libs: seq<Library>, other: seq<Library>)
    requires WellFormed(ts) && forall l :: Count(libs, l) == Count(other, l)
    ensures LinkAll(Flatten(ts), libs).Ok? <==> LinkAll(Flatten(ts), other).Ok?
    ensures LinkAll(Flatten(ts), libs).Ok? ==> LinkAll(Flatten(ts), libs) == LinkAll(Flatten(ts), other)
  {
    forall l ensures l in libs <==> l in other {
      CountPositive(libs, l);
      CountPositive(other, l);
    }
    SameLibraries(libs, other);
    assert libs == [] <==> other == [] by {
      assert libs != [] ==> libs[0] in other;
      assert other != [] ==> other[0] in libs;
    }
    if libs != [] {
      LinkReplacesExactlyTheSlots(ts, libs);
      LinkReplacesExactlyTheSlots(ts, other);
    }
  }

  lemma SameLibraries(libs: seq<Library>, other: seq<Library>)
    requires forall l :: Count(libs, l) == Count(other, l)
    requires forall l :: l in libs <==> l in other
    ensures DistinctHashes(libs) <==> DistinctHashes(other)
    ensures DistinctHashes(libs) ==> AddressMap(libs) == AddressMap(other)
  {
    NoDupCount(libs);
    NoDupCount(other);
    if NoDup(libs) {
      forall l ensures Count(other, l) <= 1 { assert Count(libs, l) <= 1; }
    }
    if NoDup(other) {
      forall l ensures Count(libs, l) <= 1 { assert Count(other, l) <= 1; }
    }
    if DistinctHashes(libs) {
      MapContained(libs, other);
      MapContained(other, libs);
    }
  }

  lemma MapContained(libs: seq<Library>, other: seq<Library>)
    requires DistinctHashes(libs) && DistinctHashes(other)
    requires forall l :: l in libs ==> l in other
    ensures forall h :: h in AddressMap(libs) ==> h in AddressMap(other) && AddressMap(libs)[h] == AddressMap(other)[h]
  {
    AddressMapFacts(libs);
    AddressMapFacts(other);
    forall h | h in AddressMap(libs)
      ensures h in AddressMap(other) && AddressMap(libs)[h] == AddressMap(other)[h]
    {
      var l :| l in libs && l.hash == h && l.address.Ok?;
      assert l in other;
    }
  }

  // ---- The function itself: nested loops over source paths and library names ----

  /** One entry of `linkReferences`: a source path and the libraries it declares. */
  datatype Source = Source(path: string, names: seq<string>)

  /** What the surrounding code supplies: `keccak256(path:name)` cut to 34 digits, and `getAddress`. */
  datatype Environment = Environment(
    nameHash: (string, string) -> Hash34,
    addresses: map<string, string>,
    getAddress: string -> Option<Address40>)

  function LibraryNamed(env: Environment, path: string, name: string): Library {
    Library(name, env.nameHash(path, name),
      if name !in env.addresses || env.addresses[name] == "" then Err(MissingAddress(name))
      else
        match env.getAddress(env.addresses[name])
        case None => Err(InvalidAddress(name))
        case Some(a) => Ok(a))
  }

  /** A template is read the same with and without the `0x` in front. */
  lemma TemplatePrefix(ts: seq<Token>)
    requires WellFormed(ts)
    ensures Strip0x("0x" + Flatten(ts)) == Flatten(ts) == Strip0x(Flatten(ts))
  {
    if ts != [] {
      var s := Flatten(ts);
      assert ts[0] in ts && WellFormedToken(ts[0]);
      FirstCharacters(ts[1..]);
      assert ts[0].Digit? && |s| > 1 ==> s[1] == Flatten(ts[1..])[0];
      Mismatch(s, "0x", if s[0] == '0' then 1 else 0);
    }
  }

  function LibrariesOf(env: Environment, path: string, names: seq<string>): seq<Library> {
    seq(|names|, i requires 0 <= i < |names| => LibraryNamed(env, path, names[i]))
  }

  function AllLibraries(env: Environment, sources: seq<Source>): seq<Library> {
    if sources == [] then []
    else LibrariesOf(env, sources[0].path, sources[0].names) + AllLibraries(env, sources[1..])
  }

  function Strip0x(bytecode: string): string {
    if StartsWith(bytecode, "0x") then bytecode[2..] else bytecode
  }

  method LinkBeamioUserCardBytecode(bytecode: string, sources: seq<Source>, env: Environment)
      returns (r: Result<string, LinkError>)
    ensures r == match LinkAll(Strip0x(bytecode), AllLibraries(env, sources))
                 case Err(e) => Err(e)
                 case Ok(b) => Ok("0x" + b)
  {
    ghost var whole := LinkAll(Strip0x(bytecode), AllLibraries(env, sources));
    var b := Strip0x(bytecode);
    assert sources[0..] == sources;
    var i := 0;
    while i < |sources|
      invariant i <= |sources|
      invariant whole == LinkAll(b, AllLibraries(env, sources[i..]))
    {
      var path, names := sources[i].path, sources[i].names;
      RemainingBounds(env, sources, i);
      var j := 0;
      while j < |names|
        invariant j <= |names|
        invariant whole == LinkAll(b, Remaining(env, sources, i, j))
      {
        RemainingNext(env, sources, i, j);
        var linked := LinkLibrary(b, path, names[j], env);
        if linked.Err? { return linked; }
        b := linked.value;
        j := j + 1;
      }
      i := i + 1;
    }
    return Ok("0x" + b);
  }

  /** The libraries still to be linked when the loops stand at library `j` of source `i`. */
  function Remaining(env: Environment, sources: seq<Source>, i: nat, j: nat): seq<Library>
    requires i < |sources| && j <= |sources[i].names|
  {
    LibrariesOf(env, sources[i].path, sources[i].names)[j..] + AllLibraries(env, sources[i + 1..])
  }

  lemma RemainingNext(env: Environment, sources: seq<Source>, i: nat, j: nat)
    requires i < |sources| && j < |sources[i].names|
    ensures var now := Remaining(env, sources, i, j);
      && now != [] && now[0] == LibraryNamed(env, sources[i].path, sources[i].names[j])
      && now[1..] == Remaining(env, sources, i, j + 1)
  {
    var libs, later := LibrariesOf(env, sources[i].path, sources[i].names), AllLibraries(env, sources[i + 1..]);
    assert (libs[j..] + later)[1..] == libs[j + 1..] + later;
  }

  lemma RemainingBounds(env: Environment, sources: seq<Source>, i: nat)
    requires i < |sources|
    ensures AllLibraries(env, sources[i..]) == Remaining(env, sources, i, 0)
    ensures Remaining(env, sources, i, |sources[i].names|) == AllLibraries(env, sources[i + 1..])
  {
    var libs, later := LibrariesOf(env, sources[i].path, sources[i].names), AllLibraries(env, sources[i + 1..]);
    assert sources[i..][1..] == sources[i + 1..] && libs[0..] == libs && libs[|libs|..] + later == later;
  }

  /** The body of the inner loop. */
  method LinkLibrary(b: string, path: string, libName: string, env: Environment) returns (r: Result<string, LinkError>)
    ensures r == LinkOne(b, LibraryNamed(env, path, libName))
  {
    if libName !in env.addresses || env.addresses[libName] == "" { return Err(MissingAddress(libName)); }
    var hash := env.nameHash(path, libName);
    var placeholder := Lower(Placeholder(hash));
    HashIsLower(hash);
    LowerTokenText(Slot(hash));
    var clean := env.getAddress(env.addresses[libName]);
    if clean.None? { return Err(InvalidAddress(libName)); }
    var parts := Split(Lower(b), placeholder);
    if |parts| < 2 { return Err(PlaceholderNotFound(libName)); }
    return Ok(Join(parts, clean.value));
  }

  lemma HashIsLower(h: Hash34)
    ensures Lower(h) == h && IsHash(h)
  {
    forall i | 0 <= i < 34 ensures Lower(h)[i] == h[i] { assert h[i] in h; }
  }
}
