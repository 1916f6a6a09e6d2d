/** Weighted sums over sequences and maps: the one piece of arithmetic every conservation law in
    this project reduces to. */
module Sums {

  function Sum<T>(f: T -> int, s: seq<T>): int {
    if s == [] then 0 else f(s[0]) + Sum(f, s[1..])
  }

  lemma {:induction false} SumConcat<T>(f: T -> int, a: seq<T>, b: seq<T>)
    ensures Sum(f, a + b) == Sum(f, a) + Sum(f, b)
  {
    if a == [] {
      assert a + b == b;
    } else {
      assert (a + b)[1..] == a[1..] + b;
      SumConcat(f, a[1..], b);
    }
  }

  lemma {:induction false} SumAppend<T>(f: T -> int, s: seq<T>, x: T)
    ensures Sum(f, s + [x]) == Sum(f, s) + f(x)
  {
    SumConcat(f, s, [x]);
    assert [x][1..] == [];
  }

  lemma {:induction false} SumUpdate<T>(f: T -> int, s: seq<T>, i: nat, x: T)
    requires i < |s|
    ensures Sum(f, s[i := x]) == Sum(f, s) - f(s[i]) + f(x)
  {
    var l, r := s[..i], s[i + 1..];
    assert s == (l + [s[i]]) + r && s[i := x] == (l + [x]) + r;
    SumConcat(f, l + [s[i]], r);
    SumConcat(f, l + [x], r);
    SumAppend(f, l, s[i]);
    SumAppend(f, l, x);
  }

  lemma {:induction false} SumRemove<T>(f: T -> int, s: seq<T>, i: nat)
    requires i < |s|
    ensures Sum(f, s[..i] + s[i + 1..]) == Sum(f, s) - f(s[i])
  {
    var l, r := s[..i], s[i + 1..];
    assert s == (l + [s[i]]) + r;
    SumConcat(f, l + [s[i]], r);
    SumAppend(f, l, s[i]);
    SumConcat(f, l, r);
  }

  lemma {:induction false} SumNonNegative<T>(f: T -> int, s: seq<T>)
    requires forall x :: x in s ==> f(x) >= 0
    ensures Sum(f, s) >= 0
    ensures forall x :: x in s ==> f(x) <= Sum(f, s)
  {
    if s != [] {
      SumNonNegative(f, s[1..]);
    }
  }

  lemma {:induction false} SumZero<T>(f: T -> int, s: seq<T>)
    requires forall x :: x in s ==> f(x) == 0
    ensures Sum(f, s) == 0
  {
    if s != [] {
      SumZero(f, s[1..]);
    }
  }

  /** Counting the elements with a property. */
  function Flag<T>(p: T -> bool): T -> int { (x: T) => if p(x) then 1 else 0 }

  predicate Holds<T>(p: T -> bool, s: seq<T>) { exists i :: 0 <= i < |s| && p(s[i]) }

  lemma {:induction false} FlagSum<T>(p: T -> bool, s: seq<T>)
    ensures 0 <= Sum(Flag(p), s)
    ensures Holds(p, s) <==> Sum(Flag(p), s) > 0
  {
    SumNonNegative(Flag(p), s);
    if i :| 0 <= i < |s| && p(s[i]) {
      assert s[i] in s;
    } else {
      SumZero(Flag(p), s);
    }
  }

  lemma {:induction false} SumEqual<T>(f: T -> int, g: T -> int, s: seq<T>)
    requires forall x :: x in s ==> f(x) == g(x)
    ensures Sum(f, s) == Sum(g, s)
  {
    if s != [] {
      SumEqual(f, g, s[1..]);
    }
  }

  /** The sum of `f` over the values of a finite map. */
  ghost function SumMap<K, V>(f: V -> int, m: map<K, V>): int
    decreases |m|
  {
    if m == map[] then 0
    else
      var k :| k in m;
      f(m[k]) + SumMap(f, m - {k})
  }

  /** Any key may be taken out first: the choice in `SumMap` does not matter. */
  lemma {:induction false} SumMapTake<K, V>(f: V -> int, m: map<K, V>, k: K)
    requires k in m
    ensures SumMap(f, m) == f(m[k]) + SumMap(f, m - {k})
    decreases |m|
  {
    var j :| j in m && SumMap(f, m) == f(m[j]) + SumMap(f, m - {j});
    if j != k {
      SumMapTake(f, m - {j}, k);
      SumMapTake(f, m - {k}, j);
      assert m - {j} - {k} == m - {k} - {j};
    }
  }

  lemma {:induction false} SumMapUpdate<K, V>(f: V -> int, m: map<K, V>, k: K, v: V)
    ensures SumMap(f, m[k := v]) == SumMap(f, m) - (if k in m then f(m[k]) else 0) + f(v)
  {
    SumMapTake(f, m[k := v], k);
    assert m[k := v] - {k} == m - {k};
    if k in m {
      SumMapTake(f, m, k);
    } else {
      assert m - {k} == m;
    }
  }
}
