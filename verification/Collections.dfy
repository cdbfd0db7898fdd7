/** Picking the elements of finite sets and maps one by one, in no fixed order. */
module Collections {

  lemma NonEmptyHasMember<T(!new)>(s: set<T>)
    requires s != {}
    ensures exists x :: x in s
  {
    assert (forall x: T :: x !in s) ==> s == {};
  }

  lemma NonEmptyHasKey<K(!new), V>(m: map<K, V>)
    requires m != map[]
    ensures exists k :: k in m
  {
    assert m.Keys == {} ==> m == map[];
    NonEmptyHasMember(m.Keys);
  }

  ghost function Pick<K(!new), V>(m: map<K, V>): (k: K)
    requires m != map[]
    ensures k in m
  {
    NonEmptyHasKey(m);
    var k :| k in m;
    k
  }

  lemma SmallerMap<K, V>(m: map<K, V>, k: K)
    requires k in m
    ensures |m - {k}| == |m| - 1
  {
    assert (m - {k}).Keys == m.Keys - {k};
    assert |m| == |m.Keys|;
    assert |m - {k}| == |(m - {k}).Keys|;
  }
}
