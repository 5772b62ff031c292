/** Strings as the linker and the SUN reader use them: case folding, prefix tests, split and join. */
module Text {
  import opened Common

  function LowerChar(c: char): char {
    if 'A' <= c <= 'Z' then c - 'A' + 'a' else c
  }

  function Lower(s: string): (r: string)
    ensures |r| == |s|
  {
    seq(|s|, i requires 0 <= i < |s| => LowerChar(s[i]))
  }

  predicate IsHexDigit(c: char) {
    '0' <= c <= '9' || 'a' <= c <= 'f' || 'A' <= c <= 'F'
  }

  predicate IsBlank(c: char) {
    c == ' ' || '\t' <= c <= '\r'
  }

  function TrimStart(s: string): string {
    if s != "" && IsBlank(s[0]) then TrimStart(s[1..]) else s
  }

  function TrimEnd(s: string): string {
    if s != "" && IsBlank(s[|s| - 1]) then TrimEnd(s[..|s| - 1]) else s
  }

  function Trim(s: string): string {
    TrimEnd(TrimStart(s))
  }

  /** The same character, or the same ASCII letter in its two cases. */
  predicate SameButCase(a: char, b: char) {
    || a == b
    || ('A' <= a <= 'Z' && b as int == a as int + 32)
    || ('A' <= b <= 'Z' && a as int == b as int + 32)
  }

  predicate SameFolded(a: string, b: string) {
    |a| == |b| && forall i :: 0 <= i < |a| ==> SameButCase(a[i], b[i])
  }

  lemma LowerCharFolds(a: char, b: char)
    ensures LowerChar(a) == LowerChar(b) <==> SameButCase(a, b)
    ensures IsBlank(LowerChar(a)) <==> IsBlank(a)
  {
  }

  /** Two texts have one lower-case form exactly when they differ at most in the case of ASCII letters. */
  lemma LowerFolds(a: string, b: string)
    ensures Lower(a) == Lower(b) <==> SameFolded(a, b)
  {
    if |a| == |b| {
      forall i | 0 <= i < |a| ensures Lower(a)[i] == Lower(b)[i] <==> SameButCase(a[i], b[i]) {
        LowerCharFolds(a[i], b[i]);
      }
    }
  }

  /** `h` is `text` in lower case. */
  predicate InLowerCase(h: string, text: string) {
    SameFolded(h, text) && forall i :: 0 <= i < |h| ==> !('A' <= h[i] <= 'Z')
  }

  lemma LowerIs(text: string)
    ensures InLowerCase(Lower(text), text)
  {
  }

  predicate White(c: char) {
    c == ' ' || c == '\t' || c == '\n' || c == 11 as char || c == 12 as char || c == '\r'
  }

  predicate AllBlank(s: string) {
    forall c :: c in s ==> White(c)
  }

  /** Neither end is blank. */
  predicate Bare(s: string) {
    s != "" ==> !White(s[0]) && !White(s[|s| - 1])
  }

  /** `raw` is `s` with blanks around it. */
  ghost predicate Written(raw: string, s: string) {
    Bare(s) && exists p: string, q: string :: AllBlank(p) && AllBlank(q) && raw == p + s + q
  }

  lemma BlankIs(c: char)
    ensures IsBlank(c) <==> White(c)
  {
  }

  lemma {:induction false} TrimStartIs(p: string, s: string)
    requires AllBlank(p) && (s != "" ==> !White(s[0]))
    ensures TrimStart(p + s) == s
  {
    if p == "" {
      assert p + s == s;
      if s != "" { BlankIs(s[0]); }
    } else {
      assert p[0] in p && forall c :: c in p[1..] ==> c in p;
      BlankIs(p[0]);
      TrimStartIs(p[1..], s);
      assert (p + s)[1..] == p[1..] + s;
    }
  }

  lemma {:induction false} TrimEndIs(s: string, q: string)
    requires AllBlank(q) && (s != "" ==> !White(s[|s| - 1]))
    ensures TrimEnd(s + q) == s
    decreases |q|
  {
    if q == "" {
      assert s + q == s;
      if s != "" { BlankIs(s[|s| - 1]); }
    } else {
      var n := |q| - 1;
      assert q[n] in q && forall c :: c in q[..n] ==> c in q;
      BlankIs(q[n]);
      TrimEndIs(s, q[..n]);
      assert (s + q)[..|s| + n] == s + q[..n];
    }
  }

  lemma {:induction false} AllBlankTrims(q: string)
    requires AllBlank(q)
    ensures TrimStart(q) == ""
  {
    assert q + "" == q;
    TrimStartIs(q, "");
  }

  /** Trimming finds the text between the outer blanks. */
  lemma TrimReads(raw: string, s: string)
    requires Written(raw, s)
    ensures Trim(raw) == s
  {
    var p: string, q: string :| AllBlank(p) && AllBlank(q) && raw == p + s + q;
    if s == "" {
      assert raw == p + q && AllBlank(raw);
      AllBlankTrims(raw);
    } else {
      assert raw == p + (s + q);
      TrimStartIs(p, s + q);
      TrimEndIs(s, q);
    }
  }

  lemma {:induction false} TrimStartCuts(s: string)
    ensures var t := TrimStart(s); |t| <= |s| && t == s[|s| - |t|..] && (t != "" ==> !White(t[0]))
    ensures forall i :: 0 <= i < |s| - |TrimStart(s)| ==> White(s[i])
  {
    if s != "" {
      BlankIs(s[0]);
      TrimStartCuts(s[1..]);
      assert forall i :: 0 < i < |s| ==> s[i] == s[1..][i - 1];
    }
  }

  lemma {:induction false} TrimEndCuts(s: string)
    ensures var t := TrimEnd(s); |t| <= |s| && t == s[..|t|] && (t != "" ==> !White(t[|t| - 1]))
    ensures forall i :: |TrimEnd(s)| <= i < |s| ==> White(s[i])
    decreases |s|
  {
    if s != "" {
      BlankIs(s[|s| - 1]);
      TrimEndCuts(s[..|s| - 1]);
    }
  }

  /** Every text has such a reading. */
  lemma TrimIsWritten(raw: string)
    ensures Written(raw, Trim(raw))
  {
    var t, s := TrimStart(raw), Trim(raw);
    TrimStartCuts(raw);
    TrimEndCuts(t);
    assert s != "" ==> s[0] == t[0];
    WrittenParts(raw, t, s);
  }

  lemma WrittenParts(raw: string, t: string, s: string)
    requires |s| <= |t| <= |raw| && t == raw[|raw| - |t|..] && s == t[..|s|] && Bare(s)
    requires forall i :: 0 <= i < |raw| - |t| ==> White(raw[i])
    requires forall i :: |s| <= i < |t| ==> White(t[i])
    ensures Written(raw, s)
  {
    var p, q := raw[..|raw| - |t|], t[|s|..];
    BlankSlice(raw, 0, |raw| - |t|);
    BlankSlice(t, |s|, |t|);
    assert raw[0..|raw| - |t|] == p && t[|s|..|t|] == q;
    Rejoined(raw, t, p, s, q);
  }

  lemma Rejoined(raw: string, t: string, p: string, s: string, q: string)
    requires |s| <= |t| <= |raw| && t == raw[|raw| - |t|..] && s == t[..|s|]
    requires p == raw[..|raw| - |t|] && q == t[|s|..]
    ensures raw == p + s + q
  {
    assert raw == p + t && t == s + q;
    Assoc(p, s, q);
  }

  lemma BlankSlice(s: string, from: nat, end: nat)
    requires from <= end <= |s| && forall i :: from <= i < end ==> White(s[i])
    ensures AllBlank(s[from..end])
  {
  }

  /** Between outer blanks, the two differ at most in the case of ASCII letters. */
  ghost predicate SameName(a: string, b: string) {
    exists s: string, t: string :: Written(a, s) && Written(b, t) && SameFolded(s, t)
  }

  /** Trimming and case folding make one text out of all spellings of a name, and out of nothing else. */
  lemma OneNameOneText(a: string, b: string)
    ensures Lower(Trim(a)) == Lower(Trim(b)) <==> SameName(a, b)
  {
    TrimIsWritten(a);
    TrimIsWritten(b);
    LowerFolds(Trim(a), Trim(b));
    if SameName(a, b) {
      var s: string, t: string :| Written(a, s) && Written(b, t) && SameFolded(s, t);
      TrimReads(a, s);
      TrimReads(b, t);
    }
  }

  predicate StartsWith(s: string, prefix: string) {
    prefix <= s
  }

  predicate EndsWith(s: string, suffix: string) {
    |suffix| <= |s| && s[|s| - |suffix|..] == suffix
  }

  /** `s.indexOf(pattern)`: the first place the pattern starts, if any. */
  function IndexOf(s: string, pattern: string): (i: Option<nat>)
    ensures i.Some? ==> i.value + |pattern| <= |s|
  {
    if StartsWith(s, pattern) then Some(0)
    else if s == "" then None
    else Shifted(IndexOf(s[1..], pattern), 1)
  }

  function Shifted(i: Option<nat>, offset: nat): Option<nat> {
    if i.None? then None else Some(i.value + offset)
  }

  /** `s.split(sep)` for a non-empty separator: left to right, without overlaps. */
  function Split(s: string, sep: string): (parts: seq<string>)
    requires sep != ""
    ensures parts != []
  {
    if s == "" then [""]
    else if StartsWith(s, sep) then [""] + Split(s[|sep|..], sep)
    else
      var rest := Split(s[1..], sep);
      [[s[0]] + rest[0]] + rest[1..]
  }

  /** `parts.join(glue)`. */
  function Join(parts: seq<string>, glue: string): string
    requires parts != []
  {
    if |parts| == 1 then parts[0] else parts[0] + glue + Join(parts[1..], glue)
  }

  /** What splitting and joining amounts to: each occurrence replaced, from the left. */
  function ReplaceAll(s: string, sep: string, glue: string): string
    requires sep != ""
  {
    if s == "" then ""
    else if StartsWith(s, sep) then glue + ReplaceAll(s[|sep|..], sep, glue)
    else [s[0]] + ReplaceAll(s[1..], sep, glue)
  }

  lemma Assoc(a: string, b: string, c: string)
    ensures (a + b) + c == a + (b + c)
  {
  }

  lemma JoinFirst(head: string, rest: seq<string>, glue: string)
    requires rest != []
    ensures Join([head + rest[0]] + rest[1..], glue) == head + Join(rest, glue)
    ensures Join([""] + rest, glue) == glue + Join(rest, glue)
  {
    var all := [head + rest[0]] + rest[1..];
    assert all[1..] == rest[1..] && ([""] + rest)[1..] == rest;
    assert "" + glue == glue;
    if |rest| > 1 {
      Assoc(head, rest[0], glue);
      Assoc(head, rest[0] + glue, Join(rest[1..], glue));
    }
  }

  lemma {:induction false} JoinSplit(s: string, sep: string, glue: string)
    requires sep != ""
    ensures Join(Split(s, sep), glue) == ReplaceAll(s, sep, glue)
  {
    if s == "" {
    } else if StartsWith(s, sep) {
      JoinSplit(s[|sep|..], sep, glue);
      JoinFirst("", Split(s[|sep|..], sep), glue);
    } else {
      JoinSplit(s[1..], sep, glue);
      JoinFirst([s[0]], Split(s[1..], sep), glue);
    }
  }

  ghost predicate Occurs(s: string, sep: string) {
    exists i :: 0 <= i <= |s| && StartsWith(s[i..], sep)
  }

  lemma OccursStep(s: string, sep: string)
    requires s != ""
    ensures Occurs(s, sep) <==> StartsWith(s, sep) || Occurs(s[1..], sep)
  {
    assert s[0..] == s;
    assert forall i :: 0 <= i <= |s[1..]| ==> s[1..][i..] == s[i + 1..];
    assert forall i :: 1 <= i <= |s| ==> s[i..] == s[1..][i - 1..];
  }

  /** A separator splits a string into two or more parts exactly when it occurs. */
  lemma {:induction false} SplitFindsOccurrence(s: string, sep: string)
    requires sep != ""
    ensures |Split(s, sep)| >= 2 <==> Occurs(s, sep)
  {
    if s != "" {
      OccursStep(s, sep);
      if !StartsWith(s, sep) { SplitFindsOccurrence(s[1..], sep); }
    }
  }

  lemma Mismatch(s: string, prefix: string, k: nat)
    requires k < |prefix| && (k >= |s| || s[k] != prefix[k])
    ensures !StartsWith(s, prefix)
  {
  }

  /** Characters before which the separator does not start are copied. */
  lemma {:induction false} ReplaceAllSkips(p: string, r: string, sep: string, glue: string)
    requires sep != ""
    requires forall i :: 0 <= i < |p| ==> !StartsWith(p[i..] + r, sep)
    ensures ReplaceAll(p + r, sep, glue) == p + ReplaceAll(r, sep, glue)
    ensures Occurs(p + r, sep) <==> Occurs(r, sep)
  {
    if p == "" {
      assert p + r == r && p + ReplaceAll(r, sep, glue) == ReplaceAll(r, sep, glue);
    } else {
      var s, q := p + r, p[1..];
      assert s[1..] == q + r;
      assert p[0..] + r == s;
      forall i | 0 <= i < |q| ensures !StartsWith(q[i..] + r, sep) {
        assert q[i..] == p[i + 1..];
      }
      ReplaceAllSkips(q, r, sep, glue);
      OccursStep(s, sep);
      Assoc([p[0]], q, ReplaceAll(r, sep, glue));
      assert [p[0]] + q == p;
    }
  }

  /** Characters before which the pattern does not start only shift its position. */
  lemma {:induction false} IndexOfSkips(p: string, r: string, pattern: string)
    requires forall i :: 0 <= i < |p| ==> !StartsWith(p[i..] + r, pattern)
    ensures IndexOf(p + r, pattern) == Shifted(IndexOf(r, pattern), |p|)
  {
    if p == "" {
      assert p + r == r;
    } else {
      var s, q := p + r, p[1..];
      assert s[1..] == q + r;
      assert p[0..] + r == s;
      forall i | 0 <= i < |q| ensures !StartsWith(q[i..] + r, pattern) {
        assert q[i..] == p[i + 1..];
      }
      IndexOfSkips(q, r, pattern);
    }
  }
}
