/** Sequences with elements left out, their order kept. */
module Sequences {
  /** `a` is `b` with some elements left out. */
  predicate Within<T(==)>(a: seq<T>, b: seq<T>)
    decreases |b|
  {
    if a == [] then true
    else if b == [] then false
    else if a[|a| - 1] == b[|b| - 1] then Within(a[..|a| - 1], b[..|b| - 1])
    else Within(a, b[..|b| - 1])
  }

  /** In other words, the elements of `a` stand in `b` at ascending places. */
  lemma {:induction false} WithinPlaces<T>(a: seq<T>, b: seq<T>) returns (at: seq<nat>)
    requires Within(a, b)
    ensures |at| == |a| && forall i :: 0 <= i < |a| ==> at[i] < |b| && a[i] == b[at[i]]
    ensures forall i, j :: 0 <= i < j < |at| ==> at[i] < at[j]
    decreases |b|
  {
    if a == [] {
      at := [];
    } else if a[|a| - 1] == b[|b| - 1] {
      at := WithinPlaces(a[..|a| - 1], b[..|b| - 1]);
      at := at + [|b| - 1];
    } else {
      at := WithinPlaces(a, b[..|b| - 1]);
    }
  }

  lemma {:induction false} PlacesWithin<T>(a: seq<T>, b: seq<T>, at: seq<nat>)
    requires |at| == |a| && forall i :: 0 <= i < |a| ==> at[i] < |b| && a[i] == b[at[i]]
    requires forall i, j :: 0 <= i < j < |at| ==> at[i] < at[j]
    ensures Within(a, b)
    decreases |b|
  {
    if a != [] {
      var m, n := |a| - 1, |b| - 1;
      assert at[m] <= n;
      if a[m] == b[n] {
        PlacesWithin(a[..m], b[..n], at[..m]);
      } else {
        PlacesWithin(a, b[..n], at);
      }
    }
  }

  lemma {:induction false} WithinSelf<T>(a: seq<T>)
    ensures Within(a, a)
  {
    if a != [] {
      WithinSelf(a[..|a| - 1]);
    }
  }

  /** Leaving out one more element at the end. */
  lemma {:induction false} WithinShorter<T>(a: seq<T>, b: seq<T>)
    requires a != [] && Within(a, b)
    ensures Within(a[..|a| - 1], b)
    decreases |b|, 0
  {
    var x := a[..|a| - 1];
    if a[|a| - 1] == b[|b| - 1] {
      WithinLonger(x, b[..|b| - 1], b[|b| - 1]);
      assert b[..|b| - 1] + [b[|b| - 1]] == b;
    } else {
      WithinShorter(a, b[..|b| - 1]);
      WithinLonger(x, b[..|b| - 1], b[|b| - 1]);
      assert b[..|b| - 1] + [b[|b| - 1]] == b;
    }
  }

  lemma {:induction false} WithinLonger<T>(a: seq<T>, b: seq<T>, x: T)
    requires Within(a, b)
    ensures Within(a, b + [x])
    decreases |b|, 1
  {
    assert (b + [x])[..|b|] == b;
    if a != [] && a[|a| - 1] == x {
      WithinShorter(a, b);
    }
  }

  lemma WithinBoth<T>(a: seq<T>, b: seq<T>, x: T)
    requires Within(a, b)
    ensures Within(a + [x], b + [x])
  {
    assert (a + [x])[..|a|] == a && (b + [x])[..|b|] == b;
  }

  lemma {:induction false} WithinTransitive<T>(a: seq<T>, b: seq<T>, c: seq<T>)
    requires Within(a, b) && Within(b, c)
    ensures Within(a, c)
    decreases |c|
  {
    if a != [] {
      var n := |c| - 1;
      if b[|b| - 1] != c[n] {
        WithinTransitive(a, b, c[..n]);
        WithinLonger(a, c[..n], c[n]);
      } else if a[|a| - 1] != b[|b| - 1] {
        WithinTransitive(a, b[..|b| - 1], c[..n]);
        WithinLonger(a, c[..n], c[n]);
      } else {
        WithinTransitive(a[..|a| - 1], b[..|b| - 1], c[..n]);
      }
      assert c[..n] + [c[n]] == c;
    }
  }

  lemma {:induction false} WithinBehind<T>(a: seq<T>, b: seq<T>, x: T)
    requires Within(a, b)
    ensures Within(a, [x] + b)
    decreases |b|
  {
    if a != [] {
      var m, n := |a| - 1, |b| - 1;
      assert ([x] + b)[..|b|] == [x] + b[..n];
      if a[m] == b[n] {
        WithinBehind(a[..m], b[..n], x);
      } else {
        WithinBehind(a, b[..n], x);
      }
    }
  }

  lemma {:induction false} WithinBehindSame<T>(a: seq<T>, b: seq<T>, x: T)
    requires Within(a, b)
    ensures Within([x] + a, [x] + b)
    decreases |b|
  {
    var m, n := |a| - 1, |b| - 1;
    if a == [] {
      StartsWithin(x, b);
      assert [x] + a == [x];
    } else {
      assert ([x] + b)[..|b|] == [x] + b[..n] && ([x] + a)[..|a|] == [x] + a[..m];
      if a[m] == b[n] {
        WithinBehindSame(a[..m], b[..n], x);
      } else {
        WithinBehindSame(a, b[..n], x);
      }
    }
  }

  lemma {:induction false} StartsWithin<T>(x: T, b: seq<T>)
    ensures Within([x], [x] + b)
  {
    if b == [] {
      assert [x] + b == [x];
      WithinSelf([x]);
    } else {
      assert ([x] + b)[..|b|] == [x] + b[..|b| - 1];
      StartsWithin(x, b[..|b| - 1]);
      assert [x][..0] == [];
    }
  }
}
