/**
 The ordering `sort_values(["supplier", "warehouse"])` applies to the
 allocation: Python's `<` on `str` (lexicographic by code point), lifted to
 (supplier, warehouse) pairs compared column by column.
 */
module Lex {

  type Pair = (string, string)

  /** Python's `a < b` on strings: the first differing character decides,
      and a proper prefix comes first. */
  predicate Less(a: string, b: string)
    decreases |a|
  {
    if a == [] then b != []
    else if b == [] then false
    else if a[0] != b[0] then a[0] < b[0]
    else Less(a[1..], b[1..])
  }

  /** The textbook definition of lexicographic order, used as an
      independent reference for `Less`. */
  ghost predicate LexBelow(a: string, b: string)
  {
    exists k :: 0 <= k <= |a| && k <= |b| && a[..k] == b[..k] &&
      ((k == |a| && k < |b|) || (k < |a| && k < |b| && a[k] < b[k]))
  }

  lemma {:induction false} LessMeansLexBelow(a: string, b: string)
    ensures Less(a, b) <==> LexBelow(a, b)
    decreases |a|
  {
    if a == [] || b == [] {
      if Less(a, b) {
        assert a[..0] == b[..0];
      }
    } else if a[0] != b[0] {
      if Less(a, b) {
        assert a[..0] == b[..0];
      }
      if LexBelow(a, b) {
        var k :| 0 <= k <= |a| && k <= |b| && a[..k] == b[..k] &&
          ((k == |a| && k < |b|) || (k < |a| && k < |b| && a[k] < b[k]));
      }
    } else {
      LessMeansLexBelow(a[1..], b[1..]);
      if Less(a, b) {
        var k :| 0 <= k <= |a[1..]| && k <= |b[1..]| && a[1..][..k] == b[1..][..k] &&
          ((k == |a[1..]| && k < |b[1..]|) || (k < |a[1..]| && k < |b[1..]| && a[1..][k] < b[1..][k]));
        assert a[..k + 1] == [a[0]] + a[1..][..k];
        assert b[..k + 1] == [b[0]] + b[1..][..k];
        assert k < |a[1..]| ==> a[k + 1] == a[1..][k];
        assert k < |b[1..]| ==> b[k + 1] == b[1..][k];
      }
      if LexBelow(a, b) {
        var k :| 0 <= k <= |a| && k <= |b| && a[..k] == b[..k] &&
          ((k == |a| && k < |b|) || (k < |a| && k < |b| && a[k] < b[k]));
        assert k != 0;
        assert a[1..][..k - 1] == a[..k][1..];
        assert b[1..][..k - 1] == b[..k][1..];
        assert LexBelow(a[1..], b[1..]) by {
          assert k - 1 < |a[1..]| ==> a[1..][k - 1] == a[k];
          assert k - 1 < |b[1..]| ==> b[1..][k - 1] == b[k];
        }
      }
    }
  }

  lemma {:induction false} LessIrreflexive(a: string)
    ensures !Less(a, a)
    decreases |a|
  {
    if a != [] {
      LessIrreflexive(a[1..]);
    }
  }

  lemma {:induction false} LessTransitive(a: string, b: string, c: string)
    requires Less(a, b) && Less(b, c)
    ensures Less(a, c)
    decreases |a|
  {
    if a != [] && a[0] == b[0] && b[0] == c[0] {
      LessTransitive(a[1..], b[1..], c[1..]);
    }
  }

  /** Any two distinct strings are ordered one way or the other. */
  lemma {:induction false} LessTotal(a: string, b: string)
    ensures a == b || Less(a, b) || Less(b, a)
    decreases |a|
  {
    if a != [] && b != [] && a[0] == b[0] {
      LessTotal(a[1..], b[1..]);
      if a[1..] == b[1..] {
        assert a == [a[0]] + a[1..] && b == [b[0]] + b[1..];
      }
    }
  }

  /** Row order of `sort_values(["supplier", "warehouse"])`: by supplier,
      then by warehouse. */
  predicate PairLess(p: Pair, q: Pair)
  {
    Less(p.0, q.0) || (p.0 == q.0 && Less(p.1, q.1))
  }

  lemma PairLessIrreflexive(p: Pair)
    ensures !PairLess(p, p)
  {
    LessIrreflexive(p.0);
    LessIrreflexive(p.1);
  }

  lemma PairLessTransitive(p: Pair, q: Pair, r: Pair)
    requires PairLess(p, q) && PairLess(q, r)
    ensures PairLess(p, r)
  {
    if Less(p.0, q.0) && Less(q.0, r.0) {
      LessTransitive(p.0, q.0, r.0);
    } else if p.0 == q.0 && q.0 == r.0 {
      LessTransitive(p.1, q.1, r.1);
    }
  }

  lemma PairLessTotal(p: Pair, q: Pair)
    ensures p == q || PairLess(p, q) || PairLess(q, p)
  {
    LessTotal(p.0, q.0);
    LessTotal(p.1, q.1);
  }

  lemma PairLessAsymmetric(p: Pair, q: Pair)
    requires PairLess(p, q)
    ensures !PairLess(q, p)
  {
    if PairLess(q, p) {
      PairLessTransitive(p, q, p);
      PairLessIrreflexive(p);
    }
  }

  /** "Not after" is transitive: the fact a sort needs to chain comparisons. */
  lemma PairNotAfterTransitive(p: Pair, q: Pair, r: Pair)
    requires !PairLess(q, p) && !PairLess(r, q)
    ensures !PairLess(r, p)
  {
    if PairLess(r, p) {
      PairLessTotal(p, q);
      if PairLess(p, q) {
        PairLessTransitive(r, p, q);
      }
    }
  }
}
