/** `Array.prototype.filter` and `reduce`-style sums over sequences, with the
    facts about them the pipelines rely on. */
module Seqs {
  import opened Optional

  /** `a` can be obtained from `b` by deleting elements, keeping the order. */
  predicate SubsequenceOf<T(==)>(a: seq<T>, b: seq<T>)
    decreases |b|
  {
    if |a| == 0 then true
    else if |b| == 0 then false
    else if a[0] == b[0] then SubsequenceOf(a[1..], b[1..])
    else SubsequenceOf(a, b[1..])
  }

  /** The position of the first occurrence of `x`. */
  function IndexOf<T(==)>(s: seq<T>, x: T): (k: nat)
    requires x in s
    ensures k < |s| && s[k] == x
    ensures forall i :: 0 <= i < k ==> s[i] != x
  {
    if s[0] == x then 0 else 1 + IndexOf(s[1..], x)
  }

  /** `s.map(f)`: `f` applied to each element, in order. */
  function Map<T, U>(s: seq<T>, f: T -> U): (r: seq<U>)
    ensures |r| == |s|
    ensures forall i :: 0 <= i < |s| ==> r[i] == f(s[i])
  {
    if |s| == 0 then [] else [f(s[0])] + Map(s[1..], f)
  }

  /** `s.filter(p)`: the elements satisfying `p`, in their original order. */
  function Filter<T>(s: seq<T>, p: T -> bool): (r: seq<T>)
    ensures |r| <= |s|
    ensures forall i :: 0 <= i < |r| ==> p(r[i])
  {
    if |s| == 0 then []
    else if p(s[0]) then [s[0]] + Filter(s[1..], p)
    else Filter(s[1..], p)
  }

  /** The filter keeps exactly the elements satisfying `p`, in order. */
  lemma {:induction false} FilterMembers<T>(s: seq<T>, p: T -> bool)
    ensures forall i :: 0 <= i < |Filter(s, p)| ==> Filter(s, p)[i] in s
    ensures forall i :: 0 <= i < |s| && p(s[i]) ==> s[i] in Filter(s, p)
    ensures SubsequenceOf(Filter(s, p), s)
  {
    if |s| > 0 {
      FilterMembers(s[1..], p);
      var rest := Filter(s[1..], p);
      assert forall i :: 0 <= i < |rest| ==> rest[i] in s;
      assert forall i :: 1 <= i < |s| ==> s[i] == s[1..][i - 1];
    }
  }

  /** Filtering out everything leaves nothing. */
  lemma {:induction false} FilterNone<T>(s: seq<T>, p: T -> bool)
    requires forall i :: 0 <= i < |s| ==> !p(s[i])
    ensures Filter(s, p) == []
  {
    if |s| > 0 {
      FilterNone(s[1..], p);
    }
  }

  lemma {:induction false} FilterConcat<T>(a: seq<T>, b: seq<T>, p: T -> bool)
    ensures Filter(a + b, p) == Filter(a, p) + Filter(b, p)
  {
    if |a| > 0 {
      assert (a + b)[1..] == a[1..] + b;
      FilterConcat(a[1..], b, p);
    } else {
      assert a + b == b;
    }
  }

  /** An element the filter rejects can be removed without changing the result. */
  lemma FilterSkip<T>(a: seq<T>, x: T, b: seq<T>, p: T -> bool)
    requires !p(x)
    ensures Filter(a + [x] + b, p) == Filter(a + b, p)
  {
    FilterConcat(a + [x], b, p);
    FilterConcat(a, [x], p);
    FilterConcat(a, b, p);
    assert Filter([x], p) == [];
  }

  /** Filtering by a predicate every element satisfies changes nothing. */
  lemma {:induction false} FilterKeepsAll<T>(s: seq<T>, p: T -> bool)
    requires forall i :: 0 <= i < |s| ==> p(s[i])
    ensures Filter(s, p) == s
  {
    if |s| > 0 {
      FilterKeepsAll(s[1..], p);
    }
  }

  /** Filtering twice is filtering once by the conjunction. */
  lemma {:induction false} FilterFilter<T>(s: seq<T>, p: T -> bool, q: T -> bool, pq: T -> bool)
    requires forall x :: pq(x) == (p(x) && q(x))
    ensures Filter(Filter(s, p), q) == Filter(s, pq)
  {
    if |s| > 0 {
      FilterFilter(s[1..], p, q, pq);
    }
  }

  /** Two sequences whose elements pass their filters at the same positions
      keep equally many. */
  lemma {:induction false} FilterLengthPointwise<T, U>(a: seq<T>, b: seq<U>, p: T -> bool, q: U -> bool)
    requires |a| == |b|
    requires forall i :: 0 <= i < |a| ==> p(a[i]) == q(b[i])
    ensures |Filter(a, p)| == |Filter(b, q)|
  {
    if |a| > 0 {
      assert p(a[0]) == q(b[0]);
      FilterLengthPointwise(a[1..], b[1..], p, q);
    }
  }

  /** The sum of `f` over `s`, as `s.reduce((sum, x) => sum + f(x), 0)`. */
  function Sum<T>(s: seq<T>, f: T -> real): real {
    if |s| == 0 then 0.0 else f(s[0]) + Sum(s[1..], f)
  }

  lemma {:induction false} SumConcat<T>(a: seq<T>, b: seq<T>, f: T -> real)
    ensures Sum(a + b, f) == Sum(a, f) + Sum(b, f)
  {
    if |a| > 0 {
      assert (a + b)[1..] == a[1..] + b;
      SumConcat(a[1..], b, f);
    } else {
      assert a + b == b;
    }
  }

  /** The fold-left view of `Sum`: the last element is added last. */
  lemma SumLast<T>(s: seq<T>, f: T -> real)
    requires |s| > 0
    ensures Sum(s, f) == Sum(s[..|s| - 1], f) + f(s[|s| - 1])
  {
    assert s == s[..|s| - 1] + [s[|s| - 1]];
    SumConcat(s[..|s| - 1], [s[|s| - 1]], f);
  }

  lemma {:induction false} SumNonNegative<T>(s: seq<T>, f: T -> real)
    requires forall i :: 0 <= i < |s| ==> f(s[i]) >= 0.0
    ensures Sum(s, f) >= 0.0
  {
    if |s| > 0 {
      SumNonNegative(s[1..], f);
    }
  }

  /** Summing over the elements that pass a filter is summing a function that
      is zero on the others. */
  lemma {:induction false} SumFilter<T>(s: seq<T>, p: T -> bool, f: T -> real, g: T -> real)
    requires forall x :: g(x) == if p(x) then f(x) else 0.0
    ensures Sum(Filter(s, p), f) == Sum(s, g)
  {
    if |s| > 0 {
      SumFilter(s[1..], p, f, g);
    }
  }

  /** The positions of the elements of `s` satisfying `p`, in increasing order. */
  function Positions<T>(s: seq<T>, p: T -> bool): (ix: seq<nat>)
    ensures |ix| <= |s|
    ensures forall j :: 0 <= j < |ix| ==> ix[j] < |s| && p(s[ix[j]])
    ensures forall i :: 0 <= i < |s| && p(s[i]) ==> i in ix
    ensures forall j, k :: 0 <= j < k < |ix| ==> ix[j] < ix[k]
  {
    if |s| == 0 then []
    else
      var n := |s| - 1;
      var front := Positions(s[..n], p);
      assert forall i :: 0 <= i < n ==> s[..n][i] == s[i];
      if p(s[n]) then front + [n] else front
  }

  /** `s.map((x, i) => f(x, i)).filter(y => y !== null)`. */
  function MapSome<T, U>(s: seq<T>, f: (T, nat) -> Option<U>): seq<U> {
    if |s| == 0 then []
    else
      var front := MapSome(s[..|s| - 1], f);
      match f(s[|s| - 1], |s| - 1)
      case Some(y) => front + [y]
      case None => front
  }

  /** When `f` gives a value exactly on the elements satisfying `p`, the `j`-th
      result of `MapSome` comes from the `j`-th position satisfying `p`. */
  lemma {:induction false} MapSomePositions<T, U>(s: seq<T>, f: (T, nat) -> Option<U>, p: T -> bool)
    requires forall i :: 0 <= i < |s| ==> f(s[i], i).Some? == p(s[i])
    ensures |MapSome(s, f)| == |Positions(s, p)|
    ensures forall j :: 0 <= j < |MapSome(s, f)| ==>
      f(s[Positions(s, p)[j]], Positions(s, p)[j]) == Some(MapSome(s, f)[j])
  {
    if |s| > 0 {
      var n := |s| - 1;
      var a := s[..n];
      assert forall i :: 0 <= i < n ==> a[i] == s[i];
      MapSomePositions(a, f, p);
      assert s == a + [s[n]];
      MapSomeSnoc(a, s[n], f, p);
    }
  }

  /** The inductive step of `MapSomePositions`: appending one element. */
  lemma MapSomeSnoc<T, U>(a: seq<T>, x: T, f: (T, nat) -> Option<U>, p: T -> bool)
    requires f(x, |a|).Some? == p(x)
    requires |MapSome(a, f)| == |Positions(a, p)|
    requires forall j :: 0 <= j < |MapSome(a, f)| ==>
      f(a[Positions(a, p)[j]], Positions(a, p)[j]) == Some(MapSome(a, f)[j])
    ensures |MapSome(a + [x], f)| == |Positions(a + [x], p)|
    ensures forall j :: 0 <= j < |MapSome(a + [x], f)| ==>
      f((a + [x])[Positions(a + [x], p)[j]], Positions(a + [x], p)[j]) == Some(MapSome(a + [x], f)[j])
  {
    var s, n := a + [x], |a|;
    assert s[..n] == a && s[n] == x;
    var front, before := MapSome(a, f), Positions(a, p);
    var r, ix := MapSome(s, f), Positions(s, p);
    if p(x) {
      assert r == front + [f(x, n).value];
      assert ix == before + [n];
      forall j | 0 <= j < |r|
        ensures f(s[ix[j]], ix[j]) == Some(r[j])
      {
        if j < |front| {
          assert ix[j] == before[j] && r[j] == front[j] && s[ix[j]] == a[before[j]];
        }
      }
    } else {
      assert r == front;
      assert ix == before;
      forall j | 0 <= j < |r|
        ensures f(s[ix[j]], ix[j]) == Some(r[j])
      {
        assert s[ix[j]] == a[before[j]];
      }
    }
  }

  /** When every element satisfies `p`, every position is kept, in order. */
  lemma {:induction false} PositionsAll<T>(s: seq<T>, p: T -> bool)
    requires forall i :: 0 <= i < |s| ==> p(s[i])
    ensures |Positions(s, p)| == |s|
    ensures forall i :: 0 <= i < |s| ==> Positions(s, p)[i] == i
  {
    if |s| > 0 {
      var n := |s| - 1;
      assert forall i :: 0 <= i < n ==> s[..n][i] == s[i];
      PositionsAll(s[..n], p);
      assert Positions(s, p) == Positions(s[..n], p) + [n];
    }
  }

  /** Replacing one element changes the sum by the difference. */
  lemma {:induction false} SumUpdate<T>(s: seq<T>, k: nat, v: T, f: T -> real)
    requires k < |s|
    ensures Sum(s[k := v], f) == Sum(s, f) - f(s[k]) + f(v)
  {
    if k > 0 {
      assert s[k := v][1..] == s[1..][k - 1 := v];
      SumUpdate(s[1..], k - 1, v, f);
    } else {
      assert s[k := v][1..] == s[1..];
    }
  }

  /** The concatenation of `f` over `s`, as a loop pushing `f(x)` for each `x`. */
  function FlatMap<T, U>(s: seq<T>, f: T -> seq<U>): seq<U> {
    if |s| == 0 then [] else f(s[0]) + FlatMap(s[1..], f)
  }

  lemma {:induction false} FlatMapConcat<T, U>(a: seq<T>, b: seq<T>, f: T -> seq<U>)
    ensures FlatMap(a + b, f) == FlatMap(a, f) + FlatMap(b, f)
  {
    if |a| > 0 {
      assert (a + b)[1..] == a[1..] + b;
      FlatMapConcat(a[1..], b, f);
    } else {
      assert a + b == b;
    }
  }

  /** An element `f` maps to nothing can be removed without changing the result. */
  lemma FlatMapSkip<T, U>(a: seq<T>, x: T, b: seq<T>, f: T -> seq<U>)
    requires f(x) == []
    ensures FlatMap(a + [x] + b, f) == FlatMap(a + b, f)
  {
    FlatMapConcat(a + [x], b, f);
    FlatMapConcat(a, [x], f);
    FlatMapConcat(a, b, f);
    assert FlatMap([x], f) == f(x) + FlatMap([], f);
  }

  /** When `f` gives `k` elements on what satisfies `p` and none elsewhere,
      the result has `k` elements per element kept by `p`. */
  lemma {:induction false} FlatMapLength<T, U>(s: seq<T>, f: T -> seq<U>, p: T -> bool, k: nat)
    requires forall i :: 0 <= i < |s| ==> |f(s[i])| == if p(s[i]) then k else 0
    ensures |FlatMap(s, f)| == k * |Filter(s, p)|
  {
    if |s| > 0 {
      FlatMapLength(s[1..], f, p, k);
    }
  }

  /** A loop that pushes `f(x)` for each `x` of `s` in turn and counts the
      elements `p` accepts and those it rejects. */
  method FlatMapCounting<T, U>(s: seq<T>, f: T -> seq<U>, p: T -> bool) returns (out: seq<U>, kept: nat, dropped: nat)
    ensures out == FlatMap(s, f)
    ensures kept == |Filter(s, p)|
    ensures kept + dropped == |s|
  {
    out, kept, dropped := [], 0, 0;
    var i := 0;
    while i < |s|
      invariant i <= |s|
      invariant out == FlatMap(s[..i], f)
      invariant kept == |Filter(s[..i], p)|
      invariant kept + dropped == i
    {
      assert s[..i + 1] == s[..i] + [s[i]];
      FlatMapConcat(s[..i], [s[i]], f);
      FilterConcat(s[..i], [s[i]], p);
      out := out + f(s[i]);
      if p(s[i]) {
        kept := kept + 1;
      } else {
        dropped := dropped + 1;
      }
      i := i + 1;
    }
    assert s[..i] == s;
  }
}
