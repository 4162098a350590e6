/** Small facts about finite sets. */
module Sets {

  lemma Element<T>(s: set<T>) returns (x: T)
    requires s != {}
    ensures x in s
  {
    x :| x in s;
  }

  lemma SubsetSize<T>(a: set<T>, b: set<T>)
    requires a <= b
    ensures |a| <= |b|
  {
    assert b == a + (b - a);
  }

  lemma {:induction false} LeastExists(s: set<int>) returns (m: int)
    requires s != {}
    ensures m in s && forall d | d in s :: m <= d
  {
    var x := Element(s);
    if s == {x} {
      m := x;
    } else {
      var rest := LeastExists(s - {x});
      m := if rest < x then rest else x;
      assert forall d | d in s :: d == x || d in s - {x};
    }
  }

  function Elements<T(==)>(xs: seq<T>): set<T> {
    set x | x in xs
  }

  lemma {:induction false} DistinctSize<T>(xs: seq<T>)
    requires forall p, q | 0 <= p < q < |xs| :: xs[p] != xs[q]
    ensures |Elements(xs)| == |xs|
  {
    if xs != [] {
      DistinctSize(xs[1..]);
      assert Elements(xs) == Elements(xs[1..]) + {xs[0]};
    }
  }
}
