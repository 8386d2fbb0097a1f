/** Counting facts about finite sets. */
module Sets {

  predicate Held<K(==)>(x: int, holders: set<K>, value: K -> int) {
    exists k :: k in holders && value(k) == x
  }

  lemma {:induction false} SubsetSize<T>(a: set<T>, b: set<T>)
    requires a <= b
    ensures |a| <= |b|
    decreases a
  {
    if a != {} {
      var x :| x in a;
      SubsetSize(a - {x}, b - {x});
    }
  }

  /** If every value from `lo` up to `hi` is held by some key, there are at least as many
      keys as values. */
  lemma {:induction false} Pigeonhole<K>(lo: int, hi: int, holders: set<K>, value: K -> int)
    requires lo <= hi
    requires forall x | lo <= x < hi :: Held(x, holders, value)
    ensures |holders| >= hi - lo
    decreases hi - lo
  {
    if lo < hi {
      assert Held(hi - 1, holders, value);
      var k :| k in holders && value(k) == hi - 1;
      var rest := holders - {k};
      forall x | lo <= x < hi - 1 ensures Held(x, rest, value) {
        assert Held(x, holders, value);
        var j :| j in holders && value(j) == x;
        assert j in rest;
      }
      Pigeonhole(lo, hi - 1, rest, value);
    }
  }
}
