/** Integer sums over sequences, and what reordering does to them. */
module Sums {
  function Sum<T>(f: T -> int, s: seq<T>): int {
    if s == [] then 0 else Sum(f, s[..|s| - 1]) + f(s[|s| - 1])
  }

  lemma {:induction false} SumConcat<T>(f: T -> int, s: seq<T>, t: seq<T>)
    ensures Sum(f, s + t) == Sum(f, s) + Sum(f, t)
  {
    if t == [] {
      assert s + t == s;
    } else {
      SumConcat(f, s, t[..|t| - 1]);
      assert (s + t)[..|s + t| - 1] == s + t[..|t| - 1];
    }
  }

  lemma SumOne<T>(f: T -> int, x: T)
    ensures Sum(f, [x]) == f(x)
  {
    assert [x][..0] == [];
  }

  lemma MultisetPushed<T>(s: seq<T>, x: T)
    ensures multiset(s + [x]) == multiset(s) + multiset{x}
  {
  }

  function RemoveAt<T>(s: seq<T>, i: nat): seq<T>
    requires i < |s|
  {
    s[..i] + s[i + 1..]
  }

  lemma MultisetRemoved<T>(s: seq<T>, i: nat)
    requires i < |s|
    ensures multiset(s) == multiset(RemoveAt(s, i)) + multiset{s[i]}
  {
    assert s == s[..i] + [s[i]] + s[i + 1..];
  }

  lemma SumAround<T>(f: T -> int, before: seq<T>, x: T, after: seq<T>)
    ensures Sum(f, before + [x] + after) == Sum(f, before + after) + f(x)
  {
    SumConcat(f, before + [x], after);
    SumConcat(f, before, [x]);
    SumConcat(f, before, after);
    SumOne(f, x);
  }

  lemma Around<T>(s: seq<T>, i: nat)
    requires i < |s|
    ensures s[..i] + [s[i]] + s[i + 1..] == s
  {
  }

  lemma SumRemoved<T>(f: T -> int, s: seq<T>, i: nat)
    requires i < |s|
    ensures Sum(f, s) == Sum(f, RemoveAt(s, i)) + f(s[i])
  {
    Around(s, i);
    SumAround(f, s[..i], s[i], s[i + 1..]);
  }

  lemma PlaceOf<T>(s: seq<T>, x: T) returns (i: nat)
    requires x in multiset(s)
    ensures i < |s| && s[i] == x
  {
    i :| 0 <= i < |s| && s[i] == x;
  }

  /** The sum depends on the elements and not on their order. */
  lemma {:induction false} SumReordered<T>(f: T -> int, s: seq<T>, t: seq<T>)
    requires multiset(s) == multiset(t)
    ensures Sum(f, s) == Sum(f, t)
    decreases |s|
  {
    if s == [] {
      assert |multiset(t)| == 0;
    } else {
      var x := s[|s| - 1];
      assert s == s[..|s| - 1] + [x];
      MultisetPushed(s[..|s| - 1], x);
      var i := PlaceOf(t, x);
      MultisetRemoved(t, i);
      SumRemoved(f, t, i);
      SameLess(multiset(s[..|s| - 1]), multiset(RemoveAt(t, i)), x);
      SumReordered(f, s[..|s| - 1], RemoveAt(t, i));
    }
  }

  lemma SameLess<T>(a: multiset<T>, b: multiset<T>, x: T)
    requires a + multiset{x} == b + multiset{x}
    ensures a == b
  {
    assert a == (a + multiset{x}) - multiset{x};
    assert b == (b + multiset{x}) - multiset{x};
  }

  lemma {:induction false} SumNonNegative<T>(f: T -> int, s: seq<T>)
    requires forall x :: x in s ==> f(x) >= 0
    ensures Sum(f, s) >= 0
  {
    if s != [] {
      SumNonNegative(f, s[..|s| - 1]);
    }
  }

  lemma SumPushed<T>(f: T -> int, s: seq<T>, x: T)
    ensures Sum(f, s + [x]) == Sum(f, s) + f(x)
  {
    assert (s + [x])[..|s|] == s;
  }

  function SumReal<T>(f: T -> real, s: seq<T>): real {
    if s == [] then 0.0 else SumReal(f, s[..|s| - 1]) + f(s[|s| - 1])
  }

  lemma SumRealPushed<T>(f: T -> real, s: seq<T>, x: T)
    ensures SumReal(f, s + [x]) == SumReal(f, s) + f(x)
  {
    assert (s + [x])[..|s|] == s;
  }

  lemma {:induction false} SumRealRemoved<T>(f: T -> real, s: seq<T>, i: nat)
    requires i < |s|
    ensures SumReal(f, RemoveAt(s, i)) == SumReal(f, s) - f(s[i])
  {
    var last := |s| - 1;
    if i == last {
      assert RemoveAt(s, i) == s[..last];
    } else {
      SumRealRemoved(f, s[..last], i);
      assert RemoveAt(s, i) == RemoveAt(s[..last], i) + [s[last]];
      SumRealPushed(f, RemoveAt(s[..last], i), s[last]);
    }
  }
}
