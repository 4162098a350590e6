/** How many entries of a finite map satisfy a predicate, and how an update changes that number. */
module Counting {

  function Matching<K(==), V>(m: map<K, V>, p: V -> bool): set<K> {
    set k | k in m && p(m[k])
  }

  function CountWhere<K(==), V>(m: map<K, V>, p: V -> bool): nat {
    |Matching(m, p)|
  }

  lemma MatchingUpdate<K, V>(m: map<K, V>, k: K, v: V, p: V -> bool)
    ensures Matching(m[k := v], p) == if p(v) then Matching(m, p) + {k} else Matching(m, p) - {k}
  {
  }

  lemma CountUpdate<K, V>(m: map<K, V>, k: K, v: V, p: V -> bool)
    ensures CountWhere(m[k := v], p) + (if k in m && p(m[k]) then 1 else 0)
         == CountWhere(m, p) + (if p(v) then 1 else 0)
  {
    MatchingUpdate(m, k, v, p);
    var s := Matching(m, p);
    assert k in s <==> k in m && p(m[k]);
    hide Matching;
    assert k in s ==> s == (s - {k}) + {k};
  }

  lemma CountRemove<K, V>(m: map<K, V>, k: K, p: V -> bool)
    requires k in m
    ensures CountWhere(m - {k}, p) + (if p(m[k]) then 1 else 0) == CountWhere(m, p)
  {
    var rest := Matching(m, p) - {k};
    assert Matching(m, p) == if p(m[k]) then rest + {k} else rest;
    assert Matching(m - {k}, p) == rest;
  }

  lemma CountPositive<K, V>(m: map<K, V>, k: K, p: V -> bool)
    requires k in m && p(m[k])
    ensures CountWhere(m, p) > 0
  {
    assert k in Matching(m, p);
  }
}
