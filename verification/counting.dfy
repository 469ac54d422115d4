/** How many entries of a map satisfy a predicate, and how that number moves
    when one entry is overwritten. Used to count workers by phase. */
module Counting {

  function Count<K(!new), V>(m: map<K, V>, P: V -> bool): (n: nat)
    ensures n <= |m|
  {
    var s := Matching(m, P);
    SubsetCard(s, m.Keys);
    |s|
  }

  function Matching<K(!new), V>(m: map<K, V>, P: V -> bool): (s: set<K>)
    ensures s <= m.Keys
    ensures forall k :: k in s <==> k in m && P(m[k])
  {
    set k | k in m && P(m[k])
  }

  lemma {:induction false} SubsetCard<K(!new)>(a: set<K>, b: set<K>)
    requires a <= b
    ensures |a| <= |b|
  {
    if a != {} {
      var x :| x in a;
      SubsetCard(a - {x}, b - {x});
    }
  }

  /** Overwriting one entry moves the count by at most one, in the direction
      the predicate dictates for the old and the new value. */
  lemma CountUpdate<K(!new), V>(m: map<K, V>, k: K, v: V, P: V -> bool)
    requires k in m
    ensures Count(m[k := v], P) + (if P(m[k]) then 1 else 0) == Count(m, P) + (if P(v) then 1 else 0)
  {
    var m' := m[k := v];
    var before := Matching(m, P);
    var after := Matching(m', P);
    assert before - {k} == after - {k};
    assert |before| == |before - {k}| + (if P(m[k]) then 1 else 0);
    assert |after| == |after - {k}| + (if P(v) then 1 else 0);
  }

  /** An entry outside the predicate leaves room below the map's size. */
  lemma CountBelowSize<K(!new), V>(m: map<K, V>, k: K, P: V -> bool)
    requires k in m && !P(m[k])
    ensures Count(m, P) < |m|
  {
    var s := Matching(m, P);
    assert s <= m.Keys - {k};
    SubsetCard(s, m.Keys - {k});
  }
}
