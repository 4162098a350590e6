/** Sorting: what a sorted listing of a set is, that there is only one, and the sort that makes it. */
module Orders {
  import opened Sets

  ghost predicate Ordered<T(!new)>(xs: seq<T>, less: (T, T) -> bool) {
    forall p, q | 0 <= p < q < |xs| :: less(xs[p], xs[q])
  }

  ghost predicate IsListing<T(!new)>(xs: seq<T>, s: set<T>, less: (T, T) -> bool) {
    Ordered(xs, less) && Elements(xs) == s
  }

  ghost predicate Asymmetric<T(!new)>(less: (T, T) -> bool) {
    forall x, y :: !(less(x, y) && less(y, x))
  }

  ghost predicate Transitive<T(!new)>(less: (T, T) -> bool) {
    forall x, y, z :: less(x, y) && less(y, z) ==> less(x, z)
  }

  ghost predicate TotalOn<T(!new)>(s: set<T>, less: (T, T) -> bool) {
    forall x, y | x in s && y in s && x != y :: less(x, y) || less(y, x)
  }

  lemma ListingElements<T(!new)>(xs: seq<T>, s: set<T>, less: (T, T) -> bool)
    requires IsListing(xs, s, less)
    ensures Elements(xs) == s
  {
  }

  lemma EmptyElements<T>(xs: seq<T>)
    ensures Elements(xs) == {} <==> xs == []
  {
    assert xs != [] ==> xs[0] in Elements(xs);
  }

  lemma SameFirst<T(!new)>(xs: seq<T>, ys: seq<T>, less: (T, T) -> bool)
    requires Asymmetric(less) && Ordered(xs, less) && Ordered(ys, less) && Elements(xs) == Elements(ys)
    requires xs != [] && ys != []
    ensures xs[0] == ys[0]
  {
    assert xs[0] in Elements(ys) && ys[0] in Elements(xs);
  }

  lemma RestElements<T(!new)>(xs: seq<T>, less: (T, T) -> bool)
    requires Asymmetric(less) && Ordered(xs, less) && xs != []
    ensures Elements(xs[1..]) == Elements(xs) - {xs[0]} && Ordered(xs[1..], less)
  {
    assert xs == [xs[0]] + xs[1..];
    assert forall i | 0 < i < |xs| :: less(xs[0], xs[i]);
    assert forall x | x in xs[1..] :: less(xs[0], x);
  }

  // A set has one listing at most.
  lemma {:induction false} ListingUnique<T(!new)>(xs: seq<T>, ys: seq<T>, less: (T, T) -> bool)
    requires Asymmetric(less) && Ordered(xs, less) && Ordered(ys, less) && Elements(xs) == Elements(ys)
    ensures xs == ys
  {
    EmptyElements(xs);
    EmptyElements(ys);
    if xs != [] && ys != [] {
      SameFirst(xs, ys, less);
      RestElements(xs, less);
      RestElements(ys, less);
      assert xs == [xs[0]] + xs[1..] && ys == [ys[0]] + ys[1..];
      hide Elements, Ordered, Asymmetric;
      ListingUnique(xs[1..], ys[1..], less);
    }
  }

  lemma OrderedDistinct<T(!new)>(xs: seq<T>, less: (T, T) -> bool)
    requires Asymmetric(less) && Ordered(xs, less)
    ensures forall p, q | 0 <= p < q < |xs| :: xs[p] != xs[q]
    ensures |Elements(xs)| == |xs|
  {
    forall p, q | 0 <= p < q < |xs| ensures xs[p] != xs[q] {
      assert less(xs[p], xs[q]);
    }
    DistinctSize(xs);
  }

  function Insert<T>(xs: seq<T>, x: T, less: (T, T) -> bool): seq<T> {
    if xs == [] || less(x, xs[0]) then [x] + xs else [xs[0]] + Insert(xs[1..], x, less)
  }

  // slice::sort_by, for a less that tells all elements apart.
  function SortBy<T>(xs: seq<T>, less: (T, T) -> bool): seq<T> {
    if xs == [] then [] else Insert(SortBy(xs[1..], less), xs[0], less)
  }

  lemma {:induction false} InsertListing<T(!new)>(xs: seq<T>, x: T, less: (T, T) -> bool)
    requires Transitive(less) && Ordered(xs, less)
    requires x !in xs && TotalOn(Elements(xs) + {x}, less)
    ensures IsListing(Insert(xs, x, less), Elements(xs) + {x}, less)
  {
    if xs == [] || less(x, xs[0]) {
      assert Elements([x] + xs) == Elements(xs) + {x};
      forall p | 0 <= p < |xs| ensures less(x, xs[p]) {
        if p > 0 { assert less(xs[0], xs[p]); }
      }
    } else {
      var rest := xs[1..];
      assert xs[0] in xs && less(xs[0], x);
      assert Elements(rest) <= Elements(xs);
      assert x !in rest;
      InsertListing(rest, x, less);
      var r := Insert(rest, x, less);
      assert Elements([xs[0]] + r) == Elements(r) + {xs[0]};
      assert Elements(xs) == Elements(rest) + {xs[0]};
      forall p | 0 <= p < |r| ensures less(xs[0], r[p]) {
        assert r[p] in Elements(r);
        if r[p] != x {
          var k :| 0 <= k < |rest| && rest[k] == r[p];
          assert less(xs[0], xs[k + 1]);
        }
      }
    }
  }

  lemma {:induction false} SortByListing<T(!new)>(xs: seq<T>, less: (T, T) -> bool)
    requires Transitive(less) && TotalOn(Elements(xs), less)
    requires forall p, q | 0 <= p < q < |xs| :: xs[p] != xs[q]
    ensures IsListing(SortBy(xs, less), Elements(xs), less)
  {
    if xs != [] {
      var rest := xs[1..];
      assert Elements(xs) == Elements(rest) + {xs[0]};
      SortByListing(rest, less);
      var r := SortBy(rest, less);
      assert xs[0] !in rest;
      assert forall x | x in r :: x in Elements(r);
      InsertListing(r, xs[0], less);
    }
  }

  // ----- The order of strings

  predicate StringLess(s: string, t: string) {
    t != [] && (s == [] || s[0] < t[0] || (s[0] == t[0] && StringLess(s[1..], t[1..])))
  }

  lemma {:induction false} StringLessAsymmetric(s: string, t: string)
    ensures !(StringLess(s, t) && StringLess(t, s))
  {
    if s != [] && t != [] {
      StringLessAsymmetric(s[1..], t[1..]);
    }
  }

  lemma {:induction false} StringLessTransitive(s: string, t: string, u: string)
    requires StringLess(s, t) && StringLess(t, u)
    ensures StringLess(s, u)
  {
    if s != [] && s[0] == t[0] && t[0] == u[0] {
      StringLessTransitive(s[1..], t[1..], u[1..]);
    }
  }

  lemma {:induction false} StringLessTotal(s: string, t: string)
    requires s != t
    ensures StringLess(s, t) || StringLess(t, s)
  {
    if s != [] && t != [] && s[0] == t[0] {
      assert s == [s[0]] + s[1..] && t == [t[0]] + t[1..];
      StringLessTotal(s[1..], t[1..]);
    }
  }

  // The strings agree up to i, where s ends or has the smaller character.
  predicate DiffersAt(s: string, t: string, i: int) {
    0 <= i <= |s| && i < |t| && s[..i] == t[..i] && (i == |s| || s[i] < t[i])
  }

  lemma DiffersLater(s: string, t: string, i: int)
    requires DiffersAt(s, t, i) && i > 0
    ensures s[0] == t[0] && DiffersAt(s[1..], t[1..], i - 1)
  {
    assert s[0] == s[..i][0] && t[0] == t[..i][0];
    assert s[1..][..i - 1] == s[..i][1..] && t[1..][..i - 1] == t[..i][1..];
  }

  // The order is the lexicographic one.
  lemma {:induction false} StringLessExactly(s: string, t: string)
    ensures StringLess(s, t) <==> exists i :: DiffersAt(s, t, i)
  {
    forall i | DiffersAt(s, t, i) && i > 0 ensures s[0] == t[0] && DiffersAt(s[1..], t[1..], i - 1) {
      DiffersLater(s, t, i);
    }
    if s != [] && t != [] && s[0] == t[0] {
      StringLessExactly(s[1..], t[1..]);
      if i :| DiffersAt(s[1..], t[1..], i) {
        assert s[..i + 1] == [s[0]] + s[1..][..i] && t[..i + 1] == [t[0]] + t[1..][..i];
        assert DiffersAt(s, t, i + 1);
      }
    } else if StringLess(s, t) {
      assert DiffersAt(s, t, 0);
    }
  }
}
