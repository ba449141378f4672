/**
 The problem instance `main()` builds from the long-form rows of the CSV
 (src/run_optimisation.py, lines 20-22): per-warehouse demand and
 per-supplier capacity aggregated by maximum, and per-route cost where a
 later row overwrites an earlier one.
 */
module Build {
  import opened Lex
  import opened Sums

  /** One CSV row: supplier, warehouse, cost, capacity, demand. */
  datatype Row = Row(supplier: string, warehouse: string, cost: real, capacity: real, demand: real)

  function Route(r: Row): Pair
  {
    (r.supplier, r.warehouse)
  }

  function Max(a: real, b: real): real
  {
    if a < b then b else a
  }

  /** `df.groupby(key)[val].max()` turned into a dict: one entry per
      distinct key, holding the largest value seen for it. */
  function GroupMax(rows: seq<Row>, key: Row -> string, val: Row -> real): map<string, real>
    decreases |rows|
  {
    if rows == [] then map[]
    else
      var m := GroupMax(rows[..|rows| - 1], key, val);
      var r := rows[|rows| - 1];
      var k := key(r);
      m[k := if k in m then Max(m[k], val(r)) else val(r)]
  }

  lemma {:induction false} GroupMaxKeys(rows: seq<Row>, key: Row -> string, val: Row -> real)
    ensures GroupMax(rows, key, val).Keys == set i | 0 <= i < |rows| :: key(rows[i])
    decreases |rows|
  {
    if rows != [] {
      var init := rows[..|rows| - 1];
      GroupMaxKeys(init, key, val);
      assert forall i :: 0 <= i < |init| ==> init[i] == rows[i];
      var ks := set i | 0 <= i < |rows| :: key(rows[i]);
      forall k | k in ks ensures k in GroupMax(rows, key, val) {
        var i :| 0 <= i < |rows| && key(rows[i]) == k;
        if i < |init| {
          assert key(init[i]) == k;
        }
      }
    }
  }

  /** Each aggregated value is attained by some row of its group and is at
      least the value of every row of the group. */
  lemma {:induction false} GroupMaxIsMax(rows: seq<Row>, key: Row -> string, val: Row -> real)
    ensures forall k :: k in GroupMax(rows, key, val) ==>
      exists i :: 0 <= i < |rows| && key(rows[i]) == k && GroupMax(rows, key, val)[k] == val(rows[i])
    ensures forall i :: 0 <= i < |rows| ==>
      key(rows[i]) in GroupMax(rows, key, val) && val(rows[i]) <= GroupMax(rows, key, val)[key(rows[i])]
    decreases |rows|
  {
    if rows != [] {
      var init := rows[..|rows| - 1];
      var last := |rows| - 1;
      GroupMaxIsMax(init, key, val);
      assert forall i :: 0 <= i < |init| ==> init[i] == rows[i];
      var m0, m := GroupMax(init, key, val), GroupMax(rows, key, val);
      forall k | k in m
        ensures exists i :: 0 <= i < |rows| && key(rows[i]) == k && m[k] == val(rows[i])
      {
        if k == key(rows[last]) && (k !in m0 || m0[k] <= val(rows[last])) {
          assert key(rows[last]) == k && m[k] == val(rows[last]);
        } else {
          var i :| 0 <= i < |init| && key(init[i]) == k && m0[k] == val(init[i]);
          assert key(rows[i]) == k && m[k] == val(rows[i]);
        }
      }
    }
  }

  /** `need`: demand per warehouse, aggregated by maximum (line 20). */
  function Need(rows: seq<Row>): map<string, real>
  {
    GroupMax(rows, (r: Row) => r.warehouse, (r: Row) => r.demand)
  }

  /** `cap`: capacity per supplier, aggregated by maximum (line 21). */
  function Cap(rows: seq<Row>): map<string, real>
  {
    GroupMax(rows, (r: Row) => r.supplier, (r: Row) => r.capacity)
  }

  /** `cost`: the dict comprehension over the rows in order (line 22), so
      a repeated route keeps the cost of its last row. */
  function Cost(rows: seq<Row>): map<Pair, real>
    decreases |rows|
  {
    if rows == [] then map[]
    else Cost(rows[..|rows| - 1])[Route(rows[|rows| - 1]) := rows[|rows| - 1].cost]
  }

  /** The iteration order of `cost` (and so of `x`): a Python dict keeps
      the position of a key's first insertion when it is overwritten. */
  function Routes(rows: seq<Row>): (o: seq<Pair>)
    ensures Distinct(o)
    ensures forall i :: 0 <= i < |o| ==> o[i] in Cost(rows)
    ensures (set p | p in o) == Cost(rows).Keys
    decreases |rows|
  {
    if rows == [] then []
    else
      var o := Routes(rows[..|rows| - 1]);
      var p := Route(rows[|rows| - 1]);
      if p in o then o else o + [p]
  }

  lemma NeedIsMaxDemand(rows: seq<Row>)
    ensures Need(rows).Keys == set i | 0 <= i < |rows| :: rows[i].warehouse
    ensures forall w :: w in Need(rows) ==>
      exists i :: 0 <= i < |rows| && rows[i].warehouse == w && Need(rows)[w] == rows[i].demand
    ensures forall i :: 0 <= i < |rows| ==>
      rows[i].warehouse in Need(rows) && rows[i].demand <= Need(rows)[rows[i].warehouse]
  {
    GroupMaxKeys(rows, (r: Row) => r.warehouse, (r: Row) => r.demand);
    GroupMaxIsMax(rows, (r: Row) => r.warehouse, (r: Row) => r.demand);
  }

  lemma CapIsMaxCapacity(rows: seq<Row>)
    ensures Cap(rows).Keys == set i | 0 <= i < |rows| :: rows[i].supplier
    ensures forall s :: s in Cap(rows) ==>
      exists i :: 0 <= i < |rows| && rows[i].supplier == s && Cap(rows)[s] == rows[i].capacity
    ensures forall i :: 0 <= i < |rows| ==>
      rows[i].supplier in Cap(rows) && rows[i].capacity <= Cap(rows)[rows[i].supplier]
  {
    GroupMaxKeys(rows, (r: Row) => r.supplier, (r: Row) => r.capacity);
    GroupMaxIsMax(rows, (r: Row) => r.supplier, (r: Row) => r.capacity);
  }

  /** Row `i` is the last row whose route is `p`. */
  ghost predicate LastRowOf(rows: seq<Row>, i: int, p: Pair)
  {
    0 <= i < |rows| && Route(rows[i]) == p && forall j :: i < j < |rows| ==> Route(rows[j]) != p
  }

  /** One key per distinct route; its cost is that of the last row with
      that route. */
  lemma {:induction false} CostIsLastRow(rows: seq<Row>)
    ensures Cost(rows).Keys == set i | 0 <= i < |rows| :: Route(rows[i])
    ensures forall p :: p in Cost(rows) ==>
      exists i :: LastRowOf(rows, i, p) && Cost(rows)[p] == rows[i].cost
    decreases |rows|
  {
    if rows != [] {
      var init, last := rows[..|rows| - 1], |rows| - 1;
      CostIsLastRow(init);
      assert forall i :: 0 <= i < |init| ==> init[i] == rows[i];
      var ps := set i | 0 <= i < |rows| :: Route(rows[i]);
      forall p | p in ps ensures p in Cost(rows) {
        var i :| 0 <= i < |rows| && Route(rows[i]) == p;
        if i < last {
          assert Route(init[i]) == p;
        }
      }
      forall p | p in Cost(rows)
        ensures exists i :: LastRowOf(rows, i, p) && Cost(rows)[p] == rows[i].cost
      {
        if p == Route(rows[last]) {
          assert LastRowOf(rows, last, p) && Cost(rows)[p] == rows[last].cost;
        } else {
          var i :| LastRowOf(init, i, p) && Cost(init)[p] == init[i].cost;
          assert LastRowOf(rows, i, p) by {
            forall j | i < j < |rows| ensures Route(rows[j]) != p {
              if j < last {
                assert Route(init[j]) != p;
              }
            }
          }
          assert Cost(rows)[p] == rows[i].cost;
        }
      }
    }
  }

  /** The instance handed to the LP: the three dicts and the iteration
      order of `cost`. */
  datatype Instance = Instance(need: map<string, real>, cap: map<string, real>,
                               cost: map<Pair, real>, routes: seq<Pair>)

  function BuildInstance(rows: seq<Row>): Instance
  {
    Instance(Need(rows), Cap(rows), Cost(rows), Routes(rows))
  }

  /** What the builder guarantees the formulation: every route has both
      endpoints declared, and `routes` lists the routes once each. */
  ghost predicate WellFormed(inst: Instance)
  {
    && Distinct(inst.routes)
    && (set p | p in inst.routes) == inst.cost.Keys
    && (forall p :: p in inst.cost ==> p.0 in inst.cap && p.1 in inst.need)
  }

  /** All three dicts come from the same rows, so every route's endpoints
      are declared. */
  lemma BuildWellFormed(rows: seq<Row>)
    ensures WellFormed(BuildInstance(rows))
  {
    forall p | p in Cost(rows) ensures p.0 in Cap(rows) && p.1 in Need(rows) {
      RouteEndsDeclared(rows, p);
    }
  }

  lemma RouteEndsDeclared(rows: seq<Row>, p: Pair)
    requires p in Cost(rows)
    ensures p.0 in Cap(rows) && p.1 in Need(rows)
  {
    CostIsLastRow(rows);
    var i :| 0 <= i < |rows| && Route(rows[i]) == p;
    NeedIsMaxDemand(rows);
    CapIsMaxCapacity(rows);
    assert rows[i].supplier in Cap(rows) && rows[i].warehouse in Need(rows);
  }

  /** Conversely, every declared supplier and warehouse is the end of some
      route. */
  lemma BuildEndpointsAreDeclared(rows: seq<Row>)
    ensures Cap(rows).Keys == set p | p in Cost(rows) :: p.0
    ensures Need(rows).Keys == set p | p in Cost(rows) :: p.1
  {
    CostIsLastRow(rows);
    forall s | s in Cap(rows) ensures s in set p | p in Cost(rows) :: p.0 {
      CapIsMaxCapacity(rows);
      var i :| 0 <= i < |rows| && rows[i].supplier == s;
      assert Route(rows[i]) in Cost(rows);
    }
    forall s | s in set p | p in Cost(rows) :: p.0 ensures s in Cap(rows) {
      var p :| p in Cost(rows) && p.0 == s;
      RouteEndsDeclared(rows, p);
    }
    forall w | w in Need(rows) ensures w in set p | p in Cost(rows) :: p.1 {
      NeedIsMaxDemand(rows);
      var i :| 0 <= i < |rows| && rows[i].warehouse == w;
      assert Route(rows[i]) in Cost(rows);
    }
    forall w | w in set p | p in Cost(rows) :: p.1 ensures w in Need(rows) {
      var p :| p in Cost(rows) && p.1 == w;
      RouteEndsDeclared(rows, p);
    }
  }
}
