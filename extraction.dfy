/**
 The shipment plan `main()` reads off the solver's answer
 (src/run_optimisation.py, lines 39-46): the routes with a strictly
 positive quantity, with their unit and line costs, sorted by supplier and
 then warehouse.
 */
module Extraction {
  import opened Lex
  import opened Sums
  import opened Build
  import opened Formulation

  /** One dict appended to `alloc` (line 43). */
  datatype Line = Line(supplier: string, warehouse: string, qty: real, unitCost: real, shipCost: real)

  function Key(l: Line): Pair
  {
    (l.supplier, l.warehouse)
  }

  /** `qty and qty > 0` (line 42): `None` and `0.0` are falsy, so the route
      is kept exactly when it has a value and that value is positive. */
  predicate Shipped(q: map<Pair, real>, p: Pair)
  {
    p in q && q[p] > 0.0
  }

  function LineFor(cost: map<Pair, real>, q: map<Pair, real>, p: Pair): Line
    requires p in cost && p in q
  {
    Line(p.0, p.1, q[p], cost[p], q[p] * cost[p])
  }

  /** The list `alloc` once the loop has visited the routes `rs` in order. */
  function Allocation(cost: map<Pair, real>, q: map<Pair, real>, rs: seq<Pair>): seq<Line>
    requires forall i :: 0 <= i < |rs| ==> rs[i] in cost
  {
    if rs == [] then []
    else
      var done, p := Allocation(cost, q, rs[..|rs| - 1]), rs[|rs| - 1];
      if Shipped(q, p) then done + [LineFor(cost, q, p)] else done
  }

  /** `for (s,w), var in x.items(): ... alloc.append(...)` (lines 39-43). */
  method ExtractAllocation(inst: Instance, q: map<Pair, real>) returns (alloc: seq<Line>)
    requires forall i :: 0 <= i < |inst.routes| ==> inst.routes[i] in inst.cost
    ensures alloc == Allocation(inst.cost, q, inst.routes)
  {
    alloc := [];
    var i := 0;
    while i < |inst.routes|
      invariant 0 <= i <= |inst.routes|
      invariant alloc == Allocation(inst.cost, q, inst.routes[..i])
    {
      var p := inst.routes[i];
      assert inst.routes[..i + 1][..i] == inst.routes[..i];
      if p in q && q[p] > 0.0 {
        alloc := alloc + [LineFor(inst.cost, q, p)];
      }
      i := i + 1;
    }
    assert inst.routes[..i] == inst.routes;
  }

  /** A line is in the allocation exactly when its route is one of the
      variables, its quantity is present and positive, and it carries that
      quantity, the route's cost, and their product. */
  lemma {:induction false} AllocationMembers(cost: map<Pair, real>, q: map<Pair, real>, rs: seq<Pair>)
    requires forall i :: 0 <= i < |rs| ==> rs[i] in cost
    ensures forall l :: l in Allocation(cost, q, rs) <==>
      Key(l) in rs && Shipped(q, Key(l)) && l == LineFor(cost, q, Key(l))
  {
    if rs != [] {
      var init, p := rs[..|rs| - 1], rs[|rs| - 1];
      AllocationMembers(cost, q, init);
      assert rs == init + [p];
      forall l ensures l in Allocation(cost, q, rs) <==>
        Key(l) in rs && Shipped(q, Key(l)) && l == LineFor(cost, q, Key(l))
      {
        assert Key(l) in rs <==> Key(l) in init || Key(l) == p;
      }
    }
  }

  /** The allocation is empty exactly when no route is shipped. */
  lemma AllocationEmpty(cost: map<Pair, real>, q: map<Pair, real>, rs: seq<Pair>)
    requires forall i :: 0 <= i < |rs| ==> rs[i] in cost
    ensures Allocation(cost, q, rs) == [] <==> forall i :: 0 <= i < |rs| ==> !Shipped(q, rs[i])
  {
    AllocationMembers(cost, q, rs);
    var alloc := Allocation(cost, q, rs);
    if alloc != [] {
      assert alloc[0] in alloc;
    }
    forall i | 0 <= i < |rs| && Shipped(q, rs[i]) ensures alloc != [] {
      assert Key(LineFor(cost, q, rs[i])) == rs[i];
      assert LineFor(cost, q, rs[i]) in alloc;
    }
  }

  predicate DistinctKeys(ls: seq<Line>)
  {
    forall i, j :: 0 <= i < j < |ls| ==> Key(ls[i]) != Key(ls[j])
  }

  /** Routes are dict keys, so no route appears twice in the allocation. */
  lemma {:induction false} AllocationDistinct(cost: map<Pair, real>, q: map<Pair, real>, rs: seq<Pair>)
    requires forall i :: 0 <= i < |rs| ==> rs[i] in cost
    requires Distinct(rs)
    ensures DistinctKeys(Allocation(cost, q, rs))
  {
    if rs != [] {
      var init, p := rs[..|rs| - 1], rs[|rs| - 1];
      AllocationDistinct(cost, q, init);
      AllocationMembers(cost, q, init);
      var done := Allocation(cost, q, init);
      if Shipped(q, p) {
        forall i | 0 <= i < |done| ensures Key(done[i]) != p {
          assert done[i] in done;
          var j :| 0 <= j < |init| && init[j] == Key(done[i]);
          assert rs[j] == init[j];
        }
      }
    }
  }

  /** Non-decreasing by (supplier, warehouse). */
  predicate Sorted(ls: seq<Line>)
  {
    forall i, j :: 0 <= i < j < |ls| ==> !PairLess(Key(ls[j]), Key(ls[i]))
  }

  predicate StrictlySorted(ls: seq<Line>)
  {
    forall i, j :: 0 <= i < j < |ls| ==> PairLess(Key(ls[i]), Key(ls[j]))
  }

  function Insert(l: Line, ls: seq<Line>): seq<Line>
  {
    if ls == [] then [l]
    else if PairLess(Key(ls[0]), Key(l)) then [ls[0]] + Insert(l, ls[1..])
    else [l] + ls
  }

  /** `sort_values(["supplier", "warehouse"])` (line 45), as an insertion
      sort on the lines. */
  function SortLines(ls: seq<Line>): seq<Line>
  {
    if ls == [] then [] else Insert(ls[0], SortLines(ls[1..]))
  }

  lemma SortedCons(x: Line, r: seq<Line>)
    requires Sorted(r)
    requires forall j :: 0 <= j < |r| ==> !PairLess(Key(r[j]), Key(x))
    ensures Sorted([x] + r)
  {
    var s := [x] + r;
    forall i, j | 0 <= i < j < |s| ensures !PairLess(Key(s[j]), Key(s[i])) {
      assert s[j] == r[j - 1];
      if i > 0 {
        assert s[i] == r[i - 1];
      }
    }
  }

  lemma SortedTail(ls: seq<Line>)
    requires Sorted(ls) && ls != []
    ensures Sorted(ls[1..])
    ensures forall j :: 0 <= j < |ls[1..]| ==> !PairLess(Key(ls[1..][j]), Key(ls[0]))
  {
    forall i, j | 0 <= i < j < |ls[1..]| ensures !PairLess(Key(ls[1..][j]), Key(ls[1..][i])) {
      assert ls[1..][j] == ls[j + 1] && ls[1..][i] == ls[i + 1];
    }
    forall j | 0 <= j < |ls[1..]| ensures !PairLess(Key(ls[1..][j]), Key(ls[0])) {
      assert ls[1..][j] == ls[j + 1];
    }
  }

  /** Inserting a line above the head keeps every line of the result not
      below the head. */
  lemma InsertedAboveHead(h: Line, l: Line, tail: seq<Line>, rest: seq<Line>)
    requires PairLess(Key(h), Key(l))
    requires forall j :: 0 <= j < |tail| ==> !PairLess(Key(tail[j]), Key(h))
    requires multiset(rest) == multiset(tail) + multiset{l}
    ensures forall j :: 0 <= j < |rest| ==> !PairLess(Key(rest[j]), Key(h))
  {
    forall j | 0 <= j < |rest| ensures !PairLess(Key(rest[j]), Key(h)) {
      assert rest[j] in multiset(rest);
      if rest[j] == l {
        PairLessAsymmetric(Key(h), Key(l));
      } else {
        assert rest[j] in multiset(tail);
        var k :| 0 <= k < |tail| && tail[k] == rest[j];
      }
    }
  }

  lemma {:induction false} InsertSorted(l: Line, ls: seq<Line>)
    requires Sorted(ls)
    ensures Sorted(Insert(l, ls))
    ensures multiset(Insert(l, ls)) == multiset(ls) + multiset{l}
  {
    if ls != [] {
      assert ls == [ls[0]] + ls[1..];
      if PairLess(Key(ls[0]), Key(l)) {
        var rest := Insert(l, ls[1..]);
        SortedTail(ls);
        InsertSorted(l, ls[1..]);
        InsertedAboveHead(ls[0], l, ls[1..], rest);
        SortedCons(ls[0], rest);
      } else {
        forall j | 0 <= j < |ls| ensures !PairLess(Key(ls[j]), Key(l)) {
          if j > 0 {
            PairNotAfterTransitive(Key(l), Key(ls[0]), Key(ls[j]));
          }
        }
        SortedCons(l, ls);
      }
    }
  }

  /** The plan is in order and is a permutation of the allocation. */
  lemma {:induction false} SortLinesSorted(ls: seq<Line>)
    ensures Sorted(SortLines(ls))
    ensures multiset(SortLines(ls)) == multiset(ls)
  {
    if ls != [] {
      SortLinesSorted(ls[1..]);
      InsertSorted(ls[0], SortLines(ls[1..]));
      assert ls == [ls[0]] + ls[1..];
    }
  }

  /** With no route twice, the order is strict. */
  lemma SortedDistinctIsStrict(ls: seq<Line>)
    requires Sorted(ls) && DistinctKeys(ls)
    ensures StrictlySorted(ls)
  {
    forall i, j | 0 <= i < j < |ls| ensures PairLess(Key(ls[i]), Key(ls[j])) {
      PairLessTotal(Key(ls[i]), Key(ls[j]));
    }
  }

  /** Two positions holding the same line make it occur twice. */
  lemma TwiceInMultiset(s: seq<Line>, i: int, j: int)
    requires 0 <= i < j < |s| && s[i] == s[j]
    ensures multiset(s)[s[i]] >= 2
  {
    assert s == s[..j] + [s[j]] + s[j + 1..];
    assert s[i] in s[..j];
    assert multiset(s) == multiset(s[..j]) + multiset{s[j]} + multiset(s[j + 1..]);
  }

  lemma {:induction false} DistinctKeysOnce(a: seq<Line>, x: Line)
    requires DistinctKeys(a)
    ensures multiset(a)[x] <= 1
  {
    if a != [] {
      assert a == [a[0]] + a[1..];
      assert DistinctKeys(a[1..]) by {
        forall i, j | 0 <= i < j < |a[1..]| ensures Key(a[1..][i]) != Key(a[1..][j]) {
          assert a[1..][i] == a[i + 1] && a[1..][j] == a[j + 1];
        }
      }
      DistinctKeysOnce(a[1..], x);
    }
  }

  lemma PermutationKeepsDistinctKeys(a: seq<Line>, b: seq<Line>)
    requires multiset(a) == multiset(b) && DistinctKeys(a)
    ensures DistinctKeys(b)
  {
    forall i, j | 0 <= i < j < |b| ensures Key(b[i]) != Key(b[j]) {
      assert b[i] in multiset(a) && b[j] in multiset(a);
      var i' :| 0 <= i' < |a| && a[i'] == b[i];
      var j' :| 0 <= j' < |a| && a[j'] == b[j];
      if b[i] == b[j] {
        TwiceInMultiset(b, i, j);
        DistinctKeysOnce(a, b[i]);
      } else {
        assert i' != j';
      }
    }
  }

  lemma StrictlySortedTail(a: seq<Line>)
    requires a != [] && StrictlySorted(a)
    ensures StrictlySorted(a[1..])
  {
    forall x, y | 0 <= x < y < |a[1..]| ensures PairLess(Key(a[1..][x]), Key(a[1..][y])) {
      assert a[1..][x] == a[x + 1] && a[1..][y] == a[y + 1];
    }
  }

  /** The first line of a strictly sorted list is the least of its lines. */
  lemma StrictlySortedHeads(a: seq<Line>, b: seq<Line>)
    requires StrictlySorted(a) && StrictlySorted(b)
    requires multiset(a) == multiset(b) && a != []
    ensures b != [] && a[0] == b[0]
  {
    assert a[0] in multiset(b);
    assert b[0] in multiset(a);
    var i :| 0 <= i < |a| && a[i] == b[0];
    var j :| 0 <= j < |b| && b[j] == a[0];
    if j > 0 {
      if i > 0 {
        PairLessAsymmetric(Key(a[0]), Key(a[i]));
      } else {
        PairLessIrreflexive(Key(a[0]));
      }
    }
  }

  /** Strictly increasing keys leave one possible order: any sort of these
      lines, stable or not, produces this list. */
  lemma {:induction false} StrictlySortedUnique(a: seq<Line>, b: seq<Line>)
    requires StrictlySorted(a) && StrictlySorted(b)
    requires multiset(a) == multiset(b)
    ensures a == b
  {
    if a != [] {
      StrictlySortedHeads(a, b);
      assert a == [a[0]] + a[1..] && b == [b[0]] + b[1..];
      assert multiset(a[1..]) == multiset(b[1..]) by {
        assert multiset(a[1..]) == multiset(a) - multiset{a[0]};
        assert multiset(b[1..]) == multiset(b) - multiset{b[0]};
      }
      StrictlySortedTail(a);
      StrictlySortedTail(b);
      StrictlySortedUnique(a[1..], b[1..]);
    } else {
      assert |multiset(b)| == 0;
    }
  }

  /** Sum of the `ship_cost` column. */
  function ShipTotal(ls: seq<Line>): real
  {
    if ls == [] then 0.0 else ls[0].shipCost + ShipTotal(ls[1..])
  }

  lemma {:induction false} ShipTotalAppend(a: seq<Line>, b: seq<Line>)
    ensures ShipTotal(a + b) == ShipTotal(a) + ShipTotal(b)
  {
    if a != [] {
      ShipTotalAppend(a[1..], b);
      assert (a + b)[0] == a[0];
      assert (a + b)[1..] == a[1..] + b;
    } else {
      assert a + b == b;
    }
  }

  lemma {:induction false} ShipTotalInsert(l: Line, ls: seq<Line>)
    ensures ShipTotal(Insert(l, ls)) == l.shipCost + ShipTotal(ls)
  {
    if ls != [] && PairLess(Key(ls[0]), Key(l)) {
      ShipTotalInsert(l, ls[1..]);
    }
  }

  /** Sorting does not change the plan's cost. */
  lemma {:induction false} ShipTotalSort(ls: seq<Line>)
    ensures ShipTotal(SortLines(ls)) == ShipTotal(ls)
  {
    if ls != [] {
      ShipTotalSort(ls[1..]);
      ShipTotalInsert(ls[0], SortLines(ls[1..]));
    }
  }

  /** With every quantity present and non-negative, the dropped routes
      contribute nothing, so the plan costs the objective's weighted sum. */
  lemma {:induction false} AllocationTotal(cost: map<Pair, real>, q: map<Pair, real>, rs: seq<Pair>)
    requires forall i :: 0 <= i < |rs| ==> rs[i] in cost
    requires forall i :: 0 <= i < |rs| ==> rs[i] in q && q[rs[i]] >= 0.0
    ensures ShipTotal(Allocation(cost, q, rs)) == SumSeq(rs, Products(cost, q))
  {
    if rs != [] {
      var init, p := rs[..|rs| - 1], rs[|rs| - 1];
      AllocationTotal(cost, q, init);
      assert ValueOf(Products(cost, q), p) == cost[p] * q[p];
      if Shipped(q, p) {
        ShipTotalAppend(Allocation(cost, q, init), [LineFor(cost, q, p)]);
      } else {
        assert q[p] == 0.0;
      }
    }
  }

  /** How `pd.DataFrame(alloc).sort_values(["supplier", "warehouse"])`
      ends: a sorted table, or the `KeyError` raised for a missing column. */
  datatype SortOutcome = SortedPlan(lines: seq<Line>) | MissingColumn(column: string)

  /** Line 45 as written: a DataFrame built from an empty list has no
      columns, so sorting it by "supplier" raises `KeyError`. */
  function SortAsWritten(alloc: seq<Line>): SortOutcome
  {
    if alloc == [] then MissingColumn("supplier") else SortedPlan(SortLines(alloc))
  }

  /** A feasible answer that ships nothing (every demand is zero) makes the
      report fail instead of producing an empty plan. */
  lemma ZeroDemandReportFails()
    ensures
      var rows := [Row("S1", "W1", 2.0, 100.0, 0.0)];
      var inst := BuildInstance(rows);
      var q := map[("S1", "W1") := 0.0];
      && Feasible(inst, q)
      && Allocation(inst.cost, q, inst.routes) == []
      && SortAsWritten(Allocation(inst.cost, q, inst.routes)) == MissingColumn("supplier")
      && SortLines(Allocation(inst.cost, q, inst.routes)) == []
  {
    var rows := [Row("S1", "W1", 2.0, 100.0, 0.0)];
    var inst := BuildInstance(rows);
    var q := map[("S1", "W1") := 0.0];
    var p := ("S1", "W1");
    assert rows[..0] == [];
    assert inst.cost == map[p := 2.0];
    assert inst.routes == [p];
    assert inst.cap == map["S1" := 100.0];
    assert inst.need == map["W1" := 0.0];
    assert Outgoing(inst, "S1") == {p};
    assert Incoming(inst, "W1") == {p};
    SumOverRemove({p}, q, p);
    assert {p} - {p} == {};
  }
}
