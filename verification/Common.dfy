/** Small vocabulary shared by the modules: optional values, results, and sequences as lists. */
module Common {

  datatype Option<+T> = None | Some(value: T)

  datatype Result<+T, +E> = Ok(value: T) | Err(error: E)

  function Lookup<K, V>(m: map<K, V>, k: K): Option<V> {
    if k in m then Some(m[k]) else None
  }

  lemma MapsEqual<K(!new), V(!new)>(a: map<K, V>, b: map<K, V>)
    requires forall k :: Lookup(a, k) == Lookup(b, k)
    ensures a == b
  {
    assert forall k :: k in a <==> Lookup(a, k).Some?;
    assert forall k :: k in b <==> Lookup(b, k).Some?;
    assert forall k :: k in a ==> a[k] == Lookup(a, k).value == Lookup(b, k).value;
  }

  /** SQL `COALESCE`. */
  function Coalesce<T>(a: Option<T>, b: Option<T>): Option<T> {
    if a.Some? then a else b
  }

  /** The list without its element at `i` (`splice(i, 1)`, or `shift()` when `i` is 0). */
  function RemoveAt<T>(s: seq<T>, i: nat): seq<T>
    requires i < |s|
  {
    s[..i] + s[i + 1..]
  }

  ghost predicate NoDup<T(!new)>(s: seq<T>) {
    forall i, j :: 0 <= i < j < |s| ==> s[i] != s[j]
  }

  /** How often `x` occurs in `s`. */
  function Count<T(==)>(s: seq<T>, x: T): nat {
    if s == [] then 0 else (if s[0] == x then 1 else 0) + Count(s[1..], x)
  }

  lemma {:induction false} CountConcat<T>(s: seq<T>, t: seq<T>, x: T)
    ensures Count(s + t, x) == Count(s, x) + Count(t, x)
  {
    if s == [] {
      assert s + t == t;
    } else {
      CountConcat(s[1..], t, x);
      assert (s + t)[0] == s[0] && (s + t)[1..] == s[1..] + t;
    }
  }

  lemma CountAppend<T>(s: seq<T>, y: T, x: T)
    ensures Count(s + [y], x) == Count(s, x) + (if x == y then 1 else 0)
  {
    CountConcat(s, [y], x);
    assert [y][1..] == [];
  }

  lemma CountRemoveAt<T>(s: seq<T>, i: nat, x: T)
    requires i < |s|
    ensures Count(s, x) == Count(RemoveAt(s, i), x) + (if s[i] == x then 1 else 0)
  {
    var a, b := s[..i], s[i + 1..];
    assert s == (a + [s[i]]) + b;
    CountConcat(a + [s[i]], b, x);
    CountAppend(a, s[i], x);
    CountConcat(a, b, x);
  }

  lemma {:induction false} CountPositive<T>(s: seq<T>, x: T)
    ensures Count(s, x) > 0 <==> x in s
  {
    if s != [] {
      CountPositive(s[1..], x);
      assert s == [s[0]] + s[1..];
    }
  }

  lemma NoDupTail<T(!new)>(s: seq<T>)
    requires s != []
    ensures NoDup(s) <==> NoDup(s[1..]) && s[0] !in s[1..]
  {
    var t := s[1..];
    assert forall i :: 0 <= i < |t| ==> t[i] == s[i + 1];
    assert forall i :: 0 < i < |s| ==> s[i] == t[i - 1];
  }

  lemma {:induction false} NoDupCount<T(!new)>(s: seq<T>)
    ensures NoDup(s) <==> forall x :: Count(s, x) <= 1
  {
    if s != [] {
      NoDupTail(s);
      NoDupCount(s[1..]);
      if NoDup(s) {
        forall x ensures Count(s, x) <= 1 {
          CountPositive(s[1..], x);
          assert Count(s[1..], x) <= 1;
        }
      } else {
        var x := Repeated(s);
        assert Count(s, x) > 1;
      }
    }
  }

  /** An element that occurs twice. */
  lemma {:induction false} Repeated<T(!new)>(s: seq<T>) returns (x: T)
    requires !NoDup(s)
    ensures Count(s, x) > 1
  {
    NoDupTail(s);
    if s[0] in s[1..] {
      x := s[0];
      CountPositive(s[1..], x);
    } else {
      x := Repeated(s[1..]);
    }
  }
}
