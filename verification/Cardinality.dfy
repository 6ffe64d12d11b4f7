/** Counting finite sets of ids. */
module Cardinality {
  lemma HasMember(s: set<int>)
    ensures s == {} || exists k :: k in s
  {
    if forall k :: k !in s {
      assert s == {};
    }
  }

  lemma {:induction false} InjectiveImage(m: map<int, nat>, keys: set<int>)
    requires keys <= m.Keys
    requires forall s, t | s in keys && t in keys :: m[s] == m[t] ==> s == t
    ensures |set s | s in keys :: m[s]| == |keys|
  {
    HasMember(keys);
    if keys != {} {
      var k :| k in keys;
      InjectiveImage(m, keys - {k});
      assert (set s | s in keys :: m[s]) == (set s | s in keys - {k} :: m[s]) + {m[k]};
    }
  }
}
