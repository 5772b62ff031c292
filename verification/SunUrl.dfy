/**
 * Reading a SUN URL (src/BeamioSun.ts): query parameters found by substring search, hex
 * normalisation, and the ASCII text over which the tag computed its MAC.
 */
module SunUrl {
  import opened Common
  import opened Text

  // ---- The code ----

  function GetQueryParam(url: string, key: string): Option<string> {
    match IndexOf(url, key + "=")
    case None => None
    case Some(idx) =>
      var rest := url[idx + |key| + 1..];
      match IndexOf(rest, "&")
      case None => Some(rest)
      case Some(end) => Some(rest[..end])
  }

  datatype MacLayout = UidCEM | ECMUidSuffix

  datatype MacInput = MacInput(ascii: string, layout: MacLayout)

  predicate Before(a: Option<nat>, b: Option<nat>) {
    a.Some? && b.Some? && a.value < b.value
  }

  function DeriveMacInputAscii(url: string, uidHex: string, cHex: string, eHex: string): MacInput {
    var uidPos, cPos, ePos, mPos := IndexOf(url, "uid="), IndexOf(url, "c="), IndexOf(url, "e="), IndexOf(url, "m=");
    if Before(uidPos, cPos) && Before(cPos, ePos) && Before(ePos, mPos)
    then MacInput(uidHex + ("&c=" + (cHex + ("&e=" + (eHex + "&m=")))), UidCEM)
    else MacInput(eHex + ("&c=" + (cHex + "&m=")), ECMUidSuffix)
  }

  // ---- URLs as a prefix and parameters ----

  datatype Param = Param(key: string, value: string)

  predicate Plain(s: string) {
    '=' !in s && '&' !in s
  }

  predicate PlainParams(params: seq<Param>) {
    forall p :: p in params ==> Plain(p.key) && Plain(p.value)
  }

  function Render(params: seq<Param>): string
    decreases |params|, 1
  {
    if params == [] then "" else params[0].key + "=" + AfterEquals(params)
  }

  /** What follows the first parameter's `=`. */
  function AfterEquals(params: seq<Param>): string
    requires params != []
    decreases |params|, 0
  {
    params[0].value + if |params| == 1 then "" else "&" + Render(params[1..])
  }

  /** Where `key=` first starts: in the first parameter whose key, with what precedes it, ends with `key`. */
  function MarkerPosition(lead: string, params: seq<Param>, key: string): Option<nat>
    decreases |params|
  {
    if params == [] then None
    else
      var head := lead + params[0].key;
      if EndsWith(head, key) then Some(|head| - |key|)
      else Shifted(MarkerPosition("", params[1..], key), |head| + |params[0].value| + 2)
  }

  /** The value found there. */
  function FirstMatch(lead: string, params: seq<Param>, key: string): Option<string>
    decreases |params|
  {
    if params == [] then None
    else if EndsWith(lead + params[0].key, key) then Some(params[0].value)
    else FirstMatch("", params[1..], key)
  }

  lemma NoMarkerWithoutEquals(s: string, key: string)
    requires '=' !in s
    ensures IndexOf(s, key + "=") == None
    decreases |s|
  {
    assert |key| < |s| ==> s[|key|] in s;
    Mismatch(s, key + "=", |key|);
    if s != "" {
      assert forall i :: 0 <= i < |s[1..]| ==> s[1..][i] == s[i + 1];
      NoMarkerWithoutEquals(s[1..], key);
    }
  }

  /** In `head=value&...`, the marker does not start inside `head=value&` unless `head` ends with the key. */
  lemma MarkerNotHere(head: string, value: string, r: string, key: string, i: nat)
    requires '=' !in head && Plain(value) && Plain(key) && !EndsWith(head, key)
    requires i < |head| + |value| + 2
    ensures !StartsWith((head + "=" + value + "&")[i..] + r, key + "=")
  {
    var p, e := head + "=" + value + "&", |head|;
    var s, n := p[i..] + r, |key|;
    var m := key + "=";
    if i + n < e {
      assert s[n] == head[i + n] && head[i + n] in head;
      Mismatch(s, m, n);
    } else if i + n == e {
      assert head[i..] != key;
      var j :| 0 <= j < n && head[i + j] != key[j];
      Mismatch(s, m, j);
    } else if i <= e {
      assert s[e - i] == '=' && key[e - i] in key;
      Mismatch(s, m, e - i);
    } else if i + n < |p| {
      assert s[n] == p[i + n]
        && (i + n < |p| - 1 ==> p[i + n] == value[i + n - e - 1] && value[i + n - e - 1] in value);
      Mismatch(s, m, n);
    } else {
      var k := |p| - 1 - i;
      assert s[k] == '&' && key[k] in key;
      Mismatch(s, m, k);
    }
  }

  lemma MarkerNotBefore(p: string, key: string, r: string, i: nat)
    requires '=' !in p + key && i < |p|
    ensures !StartsWith(p[i..] + (key + "=" + r), key + "=")
  {
    var s := p[i..] + (key + "=" + r);
    assert s[|key|] == (p + key)[i + |key|];
    assert (p + key)[i + |key|] in p + key;
    Mismatch(s, key + "=", |key|);
  }

  /** When `head` ends with the key, its marker is the first one. */
  lemma MarkerAtEnd(head: string, r: string, key: string)
    requires '=' !in head && EndsWith(head, key)
    ensures IndexOf(head + "=" + r, key + "=") == Some(|head| - |key|)
  {
    var p := head[..|head| - |key|];
    assert head == p + key;
    MarkerAfter(p, r, key);
    Assoc(p, key, "=");
    Assoc(p, key + "=", r);
  }

  lemma MarkerAfter(p: string, r: string, key: string)
    requires '=' !in p + key
    ensures IndexOf(p + (key + "=" + r), key + "=") == Some(|p|)
  {
    var tail := key + "=" + r;
    forall i | 0 <= i < |p| ensures !StartsWith(p[i..] + tail, key + "=") {
      MarkerNotBefore(p, key, r, i);
    }
    IndexOfSkips(p, tail, key + "=");
    assert StartsWith(tail, key + "=");
  }

  // ---- Reading back what was rendered ----

  /** Everything the first parameter contributes, up to and including its `&`. */
  function Chunk(lead: string, p: Param): string {
    lead + p.key + "=" + p.value + "&"
  }

  lemma RenderFirst(lead: string, params: seq<Param>)
    requires params != []
    ensures lead + Render(params) == (lead + params[0].key) + "=" + AfterEquals(params)
    ensures |params| == 1 ==> AfterEquals(params) == params[0].value
  {
    Assoc(lead, params[0].key + "=", AfterEquals(params));
    Assoc(lead, params[0].key, "=");
    assert params[0].value + "" == params[0].value;
  }

  lemma RenderChunk(lead: string, params: seq<Param>)
    requires |params| > 1
    ensures lead + Render(params) == Chunk(lead, params[0]) + Render(params[1..])
  {
    var p, r := params[0], Render(params[1..]);
    RenderFirst(lead, params);
    Assoc(p.value, "&", r);
    Assoc(lead + p.key + "=", p.value + "&", r);
    Assoc(lead + p.key + "=", p.value, "&");
  }

  lemma SkipParameter(head: string, value: string, r: string, key: string)
    requires '=' !in head && Plain(value) && Plain(key) && !EndsWith(head, key)
    ensures IndexOf(head + "=" + value + "&" + r, key + "=") == Shifted(IndexOf(r, key + "="), |head| + |value| + 2)
  {
    var p := head + "=" + value + "&";
    forall i | 0 <= i < |p| ensures !StartsWith(p[i..] + r, key + "=") {
      MarkerNotHere(head, value, r, key, i);
    }
    IndexOfSkips(p, r, key + "=");
  }

  /** The first `key=` of a rendered URL is where the parameters say it is. */
  lemma {:induction false} MarkerFound(lead: string, params: seq<Param>, key: string)
    requires PlainParams(params) && Plain(key) && '=' !in lead
    ensures IndexOf(lead + Render(params), key + "=") == MarkerPosition(lead, params, key)
    decreases |params|
  {
    if params == [] {
      assert lead + "" == lead;
      NoMarkerWithoutEquals(lead, key);
    } else {
      var p, rest := params[0], params[1..];
      var head := lead + p.key;
      assert p in params;
      if EndsWith(head, key) {
        RenderFirst(lead, params);
        MarkerIn(lead + Render(params), head, AfterEquals(params), key);
      } else if |params| == 1 {
        RenderFirst(lead, params);
        OnlyParameterMisses(head, p.value, key);
        assert rest == [];
      } else {
        NotInFirst(lead, params, key);
        assert forall q :: q in rest ==> q in params;
        MarkerFound("", rest, key);
        assert "" + Render(rest) == Render(rest);
      }
    }
  }

  lemma MarkerIn(s: string, head: string, r: string, key: string)
    requires s == head + "=" + r && '=' !in head && EndsWith(head, key)
    ensures IndexOf(s, key + "=") == Some(|head| - |key|)
  {
    MarkerAtEnd(head, r, key);
  }

  lemma NotInFirst(lead: string, params: seq<Param>, key: string)
    requires |params| > 1 && '=' !in lead + params[0].key && Plain(params[0].value) && Plain(key)
    requires !EndsWith(lead + params[0].key, key)
    ensures IndexOf(lead + Render(params), key + "=")
         == Shifted(IndexOf(Render(params[1..]), key + "="), |lead + params[0].key| + |params[0].value| + 2)
  {
    RenderChunk(lead, params);
    SkipParameter(lead + params[0].key, params[0].value, Render(params[1..]), key);
  }

  lemma OnlyParameterMisses(head: string, value: string, key: string)
    requires '=' !in head && Plain(value) && Plain(key) && !EndsWith(head, key)
    ensures IndexOf(head + "=" + value, key + "=") == None
  {
    var s := head + "=" + value;
    forall i | 0 <= i < |s| ensures !StartsWith(s[i..] + "", key + "=") {
      var long := (head + "=" + value + "&")[i..] + "";
      MarkerNotHere(head, value, "", key, i);
      assert long == s[i..] + "&";
      assert StartsWith(s[i..], key + "=") ==> StartsWith(long, key + "=");
      assert s[i..] + "" == s[i..];
    }
    IndexOfSkips(s, "", key + "=");
    assert s + "" == s;
  }

  /** What comes after a value up to the next `&` is not part of it. */
  lemma ValueEnds(value: string, r: string)
    requires Plain(value)
    ensures IndexOf(value, "&") == None && IndexOf(value + "&" + r, "&") == Some(|value|)
  {
    forall i | 0 <= i < |value| ensures !StartsWith(value[i..] + "", "&") && !StartsWith(value[i..] + ("&" + r), "&") {
      assert value[i] in value;
      Mismatch(value[i..] + "", "&", 0);
      Mismatch(value[i..] + ("&" + r), "&", 0);
    }
    IndexOfSkips(value, "", "&");
    assert value + "" == value;
    IndexOfSkips(value, "&" + r, "&");
    Assoc(value, "&", r);
    assert StartsWith("&" + r, "&");
  }

  /** The text after the marker, which is where the reader looks for the value. */
  lemma {:induction false} TextAfterMarker(lead: string, params: seq<Param>, key: string) returns (r: string)
    requires MarkerPosition(lead, params, key).Some?
    ensures FirstMatch(lead, params, key).Some?
    ensures var v, s := FirstMatch(lead, params, key).value, lead + Render(params);
      var start := MarkerPosition(lead, params, key).value + |key| + 1;
      start <= |s| && (s[start..] == v || s[start..] == v + "&" + r)
    decreases |params|
  {
    var p, rest, s := params[0], params[1..], lead + Render(params);
    RenderFirst(lead, params);
    var head := lead + p.key;
    if EndsWith(head, key) {
      r := Render(rest);
      assert s[|head| + 1..] == AfterEquals(params);
      Assoc(p.value, "&", r);
    } else {
      RenderChunk(lead, params);
      r := TextAfterMarker("", rest, key);
      var c, t := Chunk(lead, p), Render(rest);
      assert "" + t == t && s == c + t;
      var start := MarkerPosition("", rest, key).value + |key| + 1;
      assert s[|c| + start..] == t[start..];
    }
  }

  // ---- Main results ----

  /** A parameter is read as the value of the first parameter whose key ends with its name. */
  lemma QueryParamIsFirstMatch(prefix: string, params: seq<Param>, key: string)
    requires PlainParams(params) && Plain(key) && '=' !in prefix
    ensures GetQueryParam(prefix + Render(params), key) == FirstMatch(prefix, params, key)
  {
    MarkerFound(prefix, params, key);
    if MarkerPosition(prefix, params, key).Some? {
      var r := TextAfterMarker(prefix, params, key);
      FirstMatchPlain(prefix, params, key);
      ValueRead(prefix + Render(params), key, MarkerPosition(prefix, params, key).value,
                FirstMatch(prefix, params, key).value, r);
    } else {
      NoMarkerNoMatch(prefix, params, key);
    }
  }

  lemma ValueRead(url: string, key: string, start: nat, value: string, r: string)
    requires IndexOf(url, key + "=") == Some(start) && Plain(value)
    requires url[start + |key| + 1..] == value || url[start + |key| + 1..] == value + "&" + r
    ensures GetQueryParam(url, key) == Some(value)
  {
    ValueEnds(value, r);
    assert (value + "&" + r)[..|value|] == value;
  }

  lemma {:induction false} FirstMatchPlain(lead: string, params: seq<Param>, key: string)
    requires PlainParams(params) && FirstMatch(lead, params, key).Some?
    ensures Plain(FirstMatch(lead, params, key).value)
    decreases |params|
  {
    assert params[0] in params && forall q :: q in params[1..] ==> q in params;
    if !EndsWith(lead + params[0].key, key) { FirstMatchPlain("", params[1..], key); }
  }

  lemma {:induction false} NoMarkerNoMatch(lead: string, params: seq<Param>, key: string)
    requires MarkerPosition(lead, params, key).None?
    ensures FirstMatch(lead, params, key).None?
    decreases |params|
  {
    if params != [] && !EndsWith(lead + params[0].key, key) { NoMarkerNoMatch("", params[1..], key); }
  }

  // ---- SUN URLs ----

  const SUN_KEYS: set<string> := {"uid", "c", "e", "m"}

  ghost predicate SunParams(params: seq<Param>) {
    && PlainParams(params)
    && (forall p :: p in params ==> p.key in SUN_KEYS)
    && (forall i, j :: 0 <= i < j < |params| ==> params[i].key != params[j].key)
  }

  /** The part of a URL before its parameters has no `=` in it. */
  ghost predicate SunPrefix(prefix: string) {
    '=' !in prefix
  }

  /** The four keys end in different letters, so none is read in the place of another. */
  lemma LastLetters(a: string, b: string)
    requires a in SUN_KEYS && b in SUN_KEYS && a[|a| - 1] == b[|b| - 1]
    ensures a == b
  {
  }

  lemma SunKeysDoNotOverlap(prefix: string, a: string, b: string)
    requires a in SUN_KEYS && b in SUN_KEYS
    ensures EndsWith(prefix + a, b) <==> a == b
  {
    var s := prefix + a;
    if EndsWith(s, b) {
      assert b[|b| - 1] == s[|s| - |b|..][|b| - 1] == a[|a| - 1];
      LastLetters(a, b);
    }
    assert s[|s| - |a|..] == a;
  }

  /** Whatever the order, each SUN parameter that is present is read back, and an absent one is reported absent. */
  lemma SunParamRoundTrip(prefix: string, params: seq<Param>, key: string)
    requires SunPrefix(prefix) && SunParams(params) && key in SUN_KEYS
    ensures forall i :: 0 <= i < |params| && params[i].key == key ==>
      GetQueryParam(prefix + Render(params), key) == Some(params[i].value)
    ensures (forall p :: p in params ==> p.key != key) ==> GetQueryParam(prefix + Render(params), key) == None
  {
    assert Plain(key);
    QueryParamIsFirstMatch(prefix, params, key);
    SunFirstMatch(prefix, params, key);
  }

  lemma {:induction false} SunFirstMatch(prefix: string, params: seq<Param>, key: string)
    requires SunParams(params) && key in SUN_KEYS
    ensures forall i :: 0 <= i < |params| && params[i].key == key ==>
      FirstMatch(prefix, params, key) == Some(params[i].value)
    ensures (forall p :: p in params ==> p.key != key) ==> FirstMatch(prefix, params, key) == None
    decreases |params|
  {
    if params != [] {
      var rest := params[1..];
      assert params[0] in params && forall q :: q in rest ==> q in params;
      assert forall i :: 0 <= i < |rest| ==> rest[i] == params[i + 1];
      SunKeysDoNotOverlap(prefix, params[0].key, key);
      if params[0].key != key { SunFirstMatch("", rest, key); }
    }
  }

  // ---- Hex values ----

  predicate IsUpperHex(c: char) {
    '0' <= c <= '9' || 'A' <= c <= 'F'
  }

  function UpperChar(c: char): char {
    if 'a' <= c <= 'z' then c - 'a' + 'A' else c
  }

  /** White space out, letters to upper case. */
  function Squeeze(s: string): string {
    if s == "" then "" else (if IsBlank(s[0]) then "" else [UpperChar(s[0])]) + Squeeze(s[1..])
  }

  predicate UpperHex(s: string, length: nat) {
    |s| == length && forall c :: c in s ==> IsUpperHex(c)
  }

  /** `None` stands for the thrown error. */
  function NormalizeHex(value: string, expectedLength: nat): Option<string> {
    var hex := Squeeze(value);
    if hex == "" || |hex| % 2 != 0 || (exists c :: c in hex && !IsUpperHex(c)) || |hex| != expectedLength
    then None else Some(hex)
  }

  lemma {:induction false} SqueezeUpperHex(s: string)
    requires forall c :: c in s ==> IsUpperHex(c)
    ensures Squeeze(s) == s
  {
    if s != "" {
      assert s[0] in s && forall c :: c in s[1..] ==> c in s;
      SqueezeUpperHex(s[1..]);
      assert s == [s[0]] + s[1..];
    }
  }

  /** Normalising is idempotent, and what it accepts is upper-case hex of the wanted length. */
  lemma NormalizeHexCanonical(value: string, n: nat)
    ensures NormalizeHex(value, n).Some? ==>
      UpperHex(NormalizeHex(value, n).value, n)
      && NormalizeHex(NormalizeHex(value, n).value, n) == NormalizeHex(value, n)
    ensures UpperHex(value, n) && n > 0 && n % 2 == 0 ==> NormalizeHex(value, n) == Some(value)
  {
    if NormalizeHex(value, n).Some? { SqueezeUpperHex(NormalizeHex(value, n).value); }
    if UpperHex(value, n) { SqueezeUpperHex(value); }
  }

  lemma {:induction false} SqueezeConcat(a: string, b: string)
    ensures Squeeze(a + b) == Squeeze(a) + Squeeze(b)
  {
    if a == "" {
      assert a + b == b;
    } else {
      SqueezeConcat(a[1..], b);
      assert (a + b)[1..] == a[1..] + b;
      Assoc(if IsBlank(a[0]) then "" else [UpperChar(a[0])], Squeeze(a[1..]), Squeeze(b));
    }
  }

  lemma SqueezeOne(c: char)
    ensures Squeeze([c]) == if White(c) then "" else [UpperChar(c)]
  {
    BlankIs(c);
    assert [c][1..] == "";
  }

  lemma UpperCharFolds(x: char, y: char)
    requires SameButCase(x, y)
    ensures UpperChar(x) == UpperChar(y) && (White(x) <==> White(y))
  {
  }

  lemma UpperHexChar(c: char)
    ensures IsUpperHex(UpperChar(c)) <==> IsHexDigit(c)
  {
  }

  lemma {:induction false} SqueezeKeeps(s: string, c: char)
    requires c in s && !White(c)
    ensures UpperChar(c) in Squeeze(s)
  {
    var i :| 0 <= i < |s| && s[i] == c;
    assert s == s[..i] + [c] + s[i + 1..];
    SqueezeConcat(s[..i] + [c], s[i + 1..]);
    SqueezeConcat(s[..i], [c]);
    SqueezeOne(c);
  }

  /** Blanks anywhere and the case of letters do not matter, and nothing but blanks and hex digits is accepted. */
  lemma NormalizeHexReads(a: string, x: char, y: char, b: string, n: nat)
    ensures White(x) ==> NormalizeHex(a + [x] + b, n) == NormalizeHex(a + b, n)
    ensures SameButCase(x, y) ==> NormalizeHex(a + [x] + b, n) == NormalizeHex(a + [y] + b, n)
    ensures !White(x) && !IsHexDigit(x) ==> NormalizeHex(a + [x] + b, n).None?
  {
    SqueezeConcat(a + [x], b);
    SqueezeConcat(a + [y], b);
    SqueezeConcat(a, [x]);
    SqueezeConcat(a, [y]);
    SqueezeConcat(a, b);
    SqueezeOne(x);
    SqueezeOne(y);
    if White(x) { assert Squeeze(a) + "" == Squeeze(a); }
    if SameButCase(x, y) { UpperCharFolds(x, y); }
    UpperHexChar(x);
    assert x in a + [x] + b;
    if !White(x) { SqueezeKeeps(a + [x] + b, x); }
  }

  // ---- The two supported layouts ----

  datatype SunFields = SunFields(uid: string, c: string, e: string, m: string)

  ghost predicate ValidFields(f: SunFields) {
    UpperHex(f.uid, 14) && UpperHex(f.c, 6) && UpperHex(f.e, 64) && UpperHex(f.m, 16)
  }

  datatype Arrangement = UidFirst | UidLast | UidBeforeE

  function Arrange(f: SunFields, a: Arrangement): seq<Param> {
    var u, c, e, m := Param("uid", f.uid), Param("c", f.c), Param("e", f.e), Param("m", f.m);
    match a
    case UidFirst => [u, c, e, m]
    case UidLast => [e, c, m, u]
    case UidBeforeE => [u, e, c, m]
  }

  /** The exact text between the first covered value and the end of `m=`. */
  function CoveredText(f: SunFields, a: Arrangement): string {
    match a
    case UidFirst => f.uid + ("&c=" + (f.c + ("&e=" + (f.e + "&m="))))
    case _ => f.e + ("&c=" + (f.c + "&m="))
  }

  lemma ArrangedIsPlain(f: SunFields, a: Arrangement)
    requires ValidFields(f)
    ensures SunParams(Arrange(f, a))
  {
    assert Plain("uid") && Plain("c") && Plain("e") && Plain("m");
    assert Plain(f.uid) && Plain(f.c) && Plain(f.e) && Plain(f.m);
  }

  lemma SunParamsTail(params: seq<Param>)
    requires SunParams(params) && params != []
    ensures SunParams(params[1..]) && forall i :: 0 < i < |params| ==> params[i].key != params[0].key
  {
    assert forall q :: q in params[1..] ==> q in params;
    assert forall i :: 0 <= i < |params[1..]| ==> params[1..][i] == params[i + 1];
  }

  /** Where the j-th parameter starts. */
  function Offset(lead: string, params: seq<Param>, j: nat): nat
    requires j < |params|
    decreases j
  {
    if j == 0 then |lead| else |lead| + |params[0].key| + |params[0].value| + 2 + Offset("", params[1..], j - 1)
  }

  /** Each SUN key is first found at the start of its own parameter. */
  lemma {:induction false} MarkerAtOffset(lead: string, params: seq<Param>, j: nat)
    requires SunParams(params) && j < |params|
    ensures MarkerPosition(lead, params, params[j].key) == Some(Offset(lead, params, j))
    decreases |params|
  {
    SunKeysDoNotOverlap(lead, params[0].key, params[j].key);
    if j > 0 {
      SunParamsTail(params);
      assert params[j] == params[1..][j - 1];
      MarkerAtOffset("", params[1..], j - 1);
    }
  }

  lemma {:induction false} OffsetsGrow(lead: string, params: seq<Param>, i: nat, j: nat)
    requires i < |params| && j < |params|
    ensures Offset(lead, params, i) < Offset(lead, params, j) <==> i < j
    decreases i
  {
    if i > 0 && j > 0 { OffsetsGrow("", params[1..], i - 1, j - 1); }
  }

  lemma PositionOf(prefix: string, params: seq<Param>, j: nat)
    requires SunPrefix(prefix) && SunParams(params) && j < |params|
    ensures IndexOf(prefix + Render(params), params[j].key + "=") == Some(Offset(prefix, params, j))
  {
    assert params[j] in params;
    MarkerFound(prefix, params, params[j].key);
    MarkerAtOffset(prefix, params, j);
  }

  /** The reader takes the uid-first layout exactly when the four parameters come in that order. */
  lemma LayoutFollowsOrder(prefix: string, params: seq<Param>, u: nat, c: nat, e: nat, m: nat, f: SunFields)
    requires SunPrefix(prefix) && SunParams(params)
    requires u < |params| && c < |params| && e < |params| && m < |params|
    requires params[u].key == "uid" && params[c].key == "c" && params[e].key == "e" && params[m].key == "m"
    ensures DeriveMacInputAscii(prefix + Render(params), f.uid, f.c, f.e).layout.UidCEM? <==> u < c < e < m
  {
    Markers();
    PositionOf(prefix, params, u);
    PositionOf(prefix, params, c);
    PositionOf(prefix, params, e);
    PositionOf(prefix, params, m);
    OffsetsGrow(prefix, params, u, c);
    OffsetsGrow(prefix, params, c, e);
    OffsetsGrow(prefix, params, e, m);
  }

  lemma RenderCons(p: Param, rest: seq<Param>)
    requires rest != []
    ensures Render([p] + rest) == p.key + "=" + (p.value + ("&" + Render(rest)))
  {
    assert ([p] + rest)[1..] == rest;
  }

  lemma RenderLast(p: Param)
    ensures Render([p]) == p.key + "=" + p.value
  {
    assert p.value + "" == p.value;
  }

  function Between(key: string): string {
    "&" + key + "="
  }

  /** One more parameter in front: its value, then the marker of the next. */
  lemma RenderStep(p: Param, key: string, value: string, t: string, rest: seq<Param>)
    requires rest != [] && Render(rest) == key + "=" + (value + t)
    ensures Render([p] + rest) == p.key + "=" + (p.value + (Between(key) + (value + t)))
  {
    RenderCons(p, rest);
    Assoc("&", key + "=", value + t);
    Assoc("&", key, "=");
  }

  /** A value and what follows it, with the end of the text split off. */
  lemma MoveEnd(v: string, b: string, s: string, t: string)
    ensures v + (b + (s + t)) == v + (b + s) + t
  {
    Assoc(b, s, t);
    Assoc(v, b + s, t);
  }

  /** Three parameters followed by any others: the two values and markers before the last value. */
  lemma ThreeParams(a: Param, b: Param, c: Param, rest: seq<Param>) returns (after: string)
    ensures c.value <= after && (rest == [] ==> after == c.value)
    ensures Render([a, b, c] + rest) == a.key + "=" + (a.value + (Between(b.key) + (b.value + Between(c.key))) + after)
  {
    after := c.value + if rest == [] then "" else "&" + Render(rest);
    assert Render([c] + rest) == c.key + "=" + after by {
      if rest == [] {
        RenderLast(c);
        assert [c] + [] == [c] && c.value + "" == c.value;
      } else {
        RenderCons(c, rest);
      }
    }
    assert after + "" == after;
    RenderStep(b, c.key, after, "", [c] + rest);
    RenderStep(a, b.key, b.value, Between(c.key) + after, [b] + ([c] + rest));
    assert [a] + ([b] + ([c] + rest)) == [a, b, c] + rest;
    Assoc(b.value, Between(c.key), after);
    MoveEnd(a.value, Between(b.key), b.value + Between(c.key), after);
  }

  lemma FourParams(u: Param, a: Param, b: Param, c: Param)
    ensures Render([u, a, b, c]) == u.key + "=" +
      (u.value + (Between(a.key) + (a.value + (Between(b.key) + (b.value + Between(c.key))))) + c.value)
  {
    var after := ThreeParams(a, b, c, []);
    var s := Between(b.key) + (b.value + Between(c.key));
    assert [a, b, c] + [] == [a, b, c] && [u] + [a, b, c] == [u, a, b, c];
    Assoc(a.value, s, after);
    RenderStep(u, a.key, a.value, s + after, [a, b, c]);
    MoveEnd(u.value, Between(a.key), a.value + s, after);
  }

  lemma Markers()
    ensures Between("c") == "&c=" && Between("e") == "&e=" && Between("m") == "&m="
    ensures "uid" + "=" == "uid=" && "c" + "=" == "c=" && "e" + "=" == "e=" && "m" + "=" == "m="
  {
  }

  /** The covered text occurs in the URL. */
  lemma CoveredTextIsSlice(prefix: string, f: SunFields, a: Arrangement) returns (before: string, after: string)
    ensures prefix + Render(Arrange(f, a)) == before + CoveredText(f, a) + after
    ensures |before| == |prefix| + match a { case UidFirst => 4 case UidLast => 2 case UidBeforeE => |f.uid| + 7 }
  {
    var covered := CoveredText(f, a);
    var u, e, c, m := Param("uid", f.uid), Param("e", f.e), Param("c", f.c), Param("m", f.m);
    Markers();
    match a
    case UidFirst =>
      FourParams(u, c, e, m);
      before, after := prefix + "uid=", f.m;
      Assoc(prefix, "uid=", covered + after);
      Assoc(before, covered, after);
    case UidLast =>
      after := ThreeParams(e, c, m, [u]);
      before := prefix + "e=";
      assert Arrange(f, a) == [e, c, m] + [u];
      Assoc(prefix, "e=", covered + after);
      Assoc(before, covered, after);
    case UidBeforeE =>
      after := ThreeParams(e, c, m, []);
      assert [e, c, m] + [] == [e, c, m] && [u] + [e, c, m] == Arrange(f, a);
      RenderCons(u, [e, c, m]);
      before := SliceBehindUid(prefix, "uid=", f.uid, covered + after, Render([e, c, m]));
      Assoc(before, covered, after);
  }

  lemma SliceBehindUid(prefix: string, key: string, uid: string, t: string, r: string) returns (before: string)
    requires r == "e=" + t
    ensures prefix + (key + (uid + ("&" + r))) == before + t && |before| == |prefix| + |key| + |uid| + 3
  {
    var lead := prefix + (key + (uid + "&"));
    before := lead + "e=";
    Assoc(uid, "&", r);
    Assoc(key, uid + "&", r);
    Assoc(prefix, key + (uid + "&"), r);
    Assoc(lead, "e=", t);
  }

  /** Every field of a well-formed SUN URL is read back. */
  lemma SunFieldsReadBack(prefix: string, f: SunFields, a: Arrangement)
    requires SunPrefix(prefix) && ValidFields(f)
    ensures var url := prefix + Render(Arrange(f, a));
      && GetQueryParam(url, "uid") == Some(f.uid) && GetQueryParam(url, "c") == Some(f.c)
      && GetQueryParam(url, "e") == Some(f.e) && GetQueryParam(url, "m") == Some(f.m)
  {
    var ps := Arrange(f, a);
    ArrangedIsPlain(f, a);
    forall i | 0 <= i < 4 ensures GetQueryParam(prefix + Render(ps), ps[i].key) == Some(ps[i].value) {
      assert ps[i] in ps;
      SunParamRoundTrip(prefix, ps, ps[i].key);
    }
    assert ps[0].key in SUN_KEYS && ps[1].key in SUN_KEYS && ps[2].key in SUN_KEYS && ps[3].key in SUN_KEYS;
  }

  function Width(p: Param): nat {
    |p.key| + |p.value| + 2
  }

  lemma FourOffsets(lead: string, a: Param, b: Param, c: Param, d: Param)
    ensures var ps := [a, b, c, d];
      && Offset(lead, ps, 0) == |lead|
      && Offset(lead, ps, 1) == |lead| + Width(a)
      && Offset(lead, ps, 2) == |lead| + Width(a) + Width(b)
      && Offset(lead, ps, 3) == |lead| + Width(a) + Width(b) + Width(c)
  {
    assert [a, b, c, d][1..] == [b, c, d] && [b, c, d][1..] == [c, d] && [c, d][1..] == [d];
    assert Offset("", [c, d], 1) == Width(c);
    assert Offset("", [b, c, d], 1) == Width(b);
    assert Offset("", [b, c, d], 2) == Width(b) + Width(c);
  }

  function FirstCovered(a: Arrangement): string {
    if a == UidFirst then "uid=" else "e="
  }

  lemma SliceIs(s: string, a: string, b: string, c: string)
    requires s == a + b + c
    ensures |a| + |b| <= |s| && s[|a|..|a| + |b|] == b
  {
  }

  lemma CoveredPositions(prefix: string, f: SunFields, a: Arrangement)
    requires SunPrefix(prefix) && SunParams(Arrange(f, a))
    ensures var url, n := prefix + Render(Arrange(f, a)), |prefix| + (if a == UidBeforeE then |f.uid| + 5 else 0);
      && IndexOf(url, FirstCovered(a)) == Some(n)
      && IndexOf(url, "m=") == Some(n + |FirstCovered(a)| + |CoveredText(f, a)| - 2)
  {
    var n := |prefix| + (if a == UidBeforeE then |f.uid| + 5 else 0);
    CoveredKeys(f, a);
    CoveredWidth(prefix, f, a);
    MarkerAtPosition(prefix, Arrange(f, a), if a == UidBeforeE then 1 else 0, FirstCovered(a), n);
    MarkerAtPosition(prefix, Arrange(f, a), if a == UidLast then 2 else 3, "m=",
                     n + |FirstCovered(a)| + |CoveredText(f, a)| - 2);
  }

  lemma MarkerAtPosition(prefix: string, params: seq<Param>, j: nat, marker: string, n: int)
    requires SunPrefix(prefix) && SunParams(params) && j < |params|
    requires params[j].key + "=" == marker && Offset(prefix, params, j) == n
    ensures IndexOf(prefix + Render(params), marker) == Some(n)
  {
    PositionOf(prefix, params, j);
  }

  lemma CoveredKeys(f: SunFields, a: Arrangement)
    ensures |Arrange(f, a)| == 4
    ensures Arrange(f, a)[if a == UidBeforeE then 1 else 0].key + "=" == FirstCovered(a)
    ensures Arrange(f, a)[if a == UidLast then 2 else 3].key + "=" == "m="
  {
    Markers();
  }

  lemma CoveredWidth(prefix: string, f: SunFields, a: Arrangement)
    ensures |Arrange(f, a)| == 4
    ensures Offset(prefix, Arrange(f, a), if a == UidBeforeE then 1 else 0)
         == |prefix| + (if a == UidBeforeE then |f.uid| + 5 else 0)
    ensures Offset(prefix, Arrange(f, a), if a == UidLast then 2 else 3)
         == |prefix| + (if a == UidBeforeE then |f.uid| + 5 else 0) + |FirstCovered(a)| + |CoveredText(f, a)| - 2
  {
    var u, c, e, m := Param("uid", f.uid), Param("c", f.c), Param("e", f.e), Param("m", f.m);
    match a
    case UidFirst => FourOffsets(prefix, u, c, e, m);
    case UidLast => FourOffsets(prefix, e, c, m, u);
    case UidBeforeE => FourOffsets(prefix, u, e, c, m);
  }

  lemma LayoutOf(prefix: string, f: SunFields, a: Arrangement)
    requires SunPrefix(prefix) && SunParams(Arrange(f, a))
    ensures DeriveMacInputAscii(prefix + Render(Arrange(f, a)), f.uid, f.c, f.e)
         == MacInput(CoveredText(f, a), if a == UidFirst then UidCEM else ECMUidSuffix)
  {
    match a
    case UidFirst => LayoutFollowsOrder(prefix, Arrange(f, a), 0, 1, 2, 3, f);
    case UidLast => LayoutFollowsOrder(prefix, Arrange(f, a), 3, 1, 0, 2, f);
    case UidBeforeE => LayoutFollowsOrder(prefix, Arrange(f, a), 0, 2, 1, 3, f);
  }

  /** For both layouts, the MAC input is the URL's own text from the first covered value to the end of `m=`. */
  lemma MacInputIsUrlSlice(prefix: string, f: SunFields, a: Arrangement)
    requires SunPrefix(prefix) && ValidFields(f)
    ensures var url := prefix + Render(Arrange(f, a));
      var start, end := IndexOf(url, FirstCovered(a)), IndexOf(url, "m=");
      && start.Some? && end.Some? && start.value + |FirstCovered(a)| <= end.value + 2
      && DeriveMacInputAscii(url, f.uid, f.c, f.e)
         == MacInput(url[start.value + |FirstCovered(a)|..end.value + 2],
                     if a == UidFirst then UidCEM else ECMUidSuffix)
  {
    ArrangedIsPlain(f, a);
    CoveredPositions(prefix, f, a);
    LayoutOf(prefix, f, a);
    var before, after := CoveredTextIsSlice(prefix, f, a);
    SliceIs(prefix + Render(Arrange(f, a)), before, CoveredText(f, a), after);
    assert |before| == |prefix| + (if a == UidBeforeE then |f.uid| + 5 else 0) + |FirstCovered(a)|;
  }
}
