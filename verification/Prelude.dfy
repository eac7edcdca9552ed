/** Small helpers shared by every module. */
module Prelude {
  datatype Option<+T> = None | Some(value: T)

  function Min(a: int, b: int): int {
    if a <= b then a else b
  }

  function Max(a: int, b: int): int {
    if a >= b then a else b
  }

  lemma Member<T>(s: set<T>) returns (x: T)
    requires s != {}
    ensures x in s
  {
    x :| x in s;
  }

  lemma SmallerSubset<T>(a: set<T>, b: set<T>)
    requires a <= b
    ensures |a| <= |b|
    ensures |a| == |b| ==> a == b
  {
    assert |b - a| == |b| - |a|;
    assert b == a + (b - a);
  }

  /** `LIMIT limit`: all of the rows, or some `limit` of them. */
  ghost predicate IsBatch<K>(chosen: set<K>, all: set<K>, limit: nat) {
    chosen <= all && |chosen| <= limit && (|chosen| < limit ==> chosen == all)
  }

  method Choose<K(==)>(all: set<K>, limit: nat) returns (chosen: set<K>)
    ensures IsBatch(chosen, all, limit)
  {
    chosen := {};
    while |chosen| < limit && chosen < all
      invariant chosen <= all && |chosen| <= limit
      decreases all - chosen
    {
      ghost var some := Member(all - chosen);
      var k :| k in all - chosen;
      chosen := chosen + {k};
    }
  }
}
