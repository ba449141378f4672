/**
 Exact sums of solved quantities. `lpSum` builds a linear expression whose
 value does not depend on the order of its terms; `SumOver` sums a map's
 values over a set of keys in no particular order, and `SumSeq` sums them
 along a sequence, as PuLP's expression evaluation does.
 */
module Sums {

  /** The value of key `k` in `q`, or 0 when `k` has no value. */
  function ValueOf<K>(q: map<K, real>, k: K): real
  {
    if k in q then q[k] else 0.0
  }

  ghost function SumOver<K>(ks: set<K>, q: map<K, real>): real
    decreases |ks|
  {
    if ks == {} then 0.0
    else
      var k :| k in ks;
      ValueOf(q, k) + SumOver(ks - {k}, q)
  }

  /** Whichever key is taken out first, the sum is the same. */
  lemma {:induction false} SumOverRemove<K>(ks: set<K>, q: map<K, real>, k: K)
    requires k in ks
    ensures SumOver(ks, q) == ValueOf(q, k) + SumOver(ks - {k}, q)
    decreases |ks|
  {
    var j :| j in ks && SumOver(ks, q) == ValueOf(q, j) + SumOver(ks - {j}, q);
    if j != k {
      SumOverRemove(ks - {j}, q, k);
      SumOverRemove(ks - {k}, q, j);
      assert ks - {j} - {k} == ks - {k} - {j};
    }
  }

  predicate Distinct<K(==)>(s: seq<K>)
  {
    forall i, j :: 0 <= i < j < |s| ==> s[i] != s[j]
  }

  function SumSeq<K>(ks: seq<K>, q: map<K, real>): real
  {
    if ks == [] then 0.0 else SumSeq(ks[..|ks| - 1], q) + ValueOf(q, ks[|ks| - 1])
  }

  /** Summing along a sequence without repeats is summing over its set. */
  lemma {:induction false} SumSeqIsSumOver<K>(ks: seq<K>, q: map<K, real>)
    requires Distinct(ks)
    ensures SumSeq(ks, q) == SumOver((set k | k in ks), q)
  {
    if ks != [] {
      var init, last := ks[..|ks| - 1], ks[|ks| - 1];
      SumSeqIsSumOver(init, q);
      var all := set k | k in ks;
      assert (set k | k in init) == all - {last} by {
        forall k | k in all - {last} ensures k in init {
          var i :| 0 <= i < |ks| && ks[i] == k;
          assert i < |ks| - 1;
          assert init[i] == k;
        }
      }
      SumOverRemove(all, q, last);
    }
  }
}
