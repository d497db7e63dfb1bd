/** Finite sets of row ids: picking the next row, and sets with at most one row; and a fact about maps. */
module Sets {

  method Pick<T>(xs: set<T>) returns (x: T)
    requires xs != {}
    ensures x in xs
  {
    x :| x in xs;
  }

  lemma Member<T>(xs: set<T>) returns (x: T)
    requires xs != {}
    ensures x in xs
  {
    x :| x in xs;
  }

  lemma AtMostOne<T>(xs: set<T>)
    requires forall x, y | x in xs && y in xs :: x == y
    ensures |xs| <= 1
  {
    if xs != {} {
      var x :| x in xs;
      assert xs == {x};
    }
  }

  lemma Singleton<T>(xs: set<T>, x: T)
    requires |xs| <= 1 && x in xs
    ensures xs == {x}
  {
    assert |xs - {x}| == |xs| - 1;
  }

  /** Taking one more row out of a loop's remaining rows. */
  lemma OneFewer<T>(xs: set<T>, rest: set<T>, x: T)
    requires x in rest
    ensures |xs - (rest - {x})| == |xs - rest| + if x in xs then 1 else 0
  {
    assert xs - (rest - {x}) == (xs - rest) + if x in xs then {x} else {};
  }

  lemma OneFewerOfTwo<T>(rest: set<T>, later: set<T>, x: T)
    requires x in rest && rest !! later
    ensures (rest + later) - {x} == (rest - {x}) + later
  {
  }

  lemma NoneLeft<T>(xs: set<T>, rest: set<T>, later: set<T>)
    requires |rest| == 0
    ensures rest + later == later && xs - rest == xs
  {
  }

  lemma PutAfterMerge<K, V>(a: map<K, V>, b: map<K, V>, k: K, v: V)
    ensures (a + b)[k := v] == a + b[k := v]
  {
  }
}
