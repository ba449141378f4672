/**
 `main()` of src/run_optimisation.py from the rows to the report: build
 the instance, pose the LP on a `Problem`, take the solver's answer, and
 read off the sorted plan and the objective value. The solve itself is
 the external solver's; its answer enters as the parameters `solved`, an
 arbitrary quantity (or none) for each variable, and `dummySolved`,
 whether it gave PuLP's `__dummy` variable a value.
 */
module Optimisation {
  import opened Lex
  import opened Build
  import opened Formulation
  import opened Extraction

  /** How `main()` ends. `Written`: it writes the plan to `shipment_plan.csv`
      and the total cost to `optimisation_summary.txt`. `Unformatted`: it
      writes the plan, opens the summary file, and then formatting the
      total `None` at line 49 raises `TypeError`, so the handler exits
      with code 1. `Failed`: line 45 raises `KeyError` for a missing
      column, nothing is written, and the handler exits with code 1. */
  datatype Outcome =
    | Written(plan: seq<Line>, total: real)
    | Unformatted(plan: seq<Line>)
    | Failed(missingColumn: string)

  /** `out_alloc`: the allocation of the solver's answer, sorted (when
      there is one to sort). */
  function Plan(rows: seq<Row>, solved: map<Pair, real>): seq<Line>
  {
    SortLines(Allocation(Cost(rows), solved, Routes(rows)))
  }

  /** `value(prob.objective)` for the solver's answer. */
  function Total(rows: seq<Row>, solved: map<Pair, real>, dummySolved: bool): Option<real>
  {
    SolvedValue(ObjectiveTerms(BuildInstance(rows)), solved, dummySolved)
  }

  /** The plan lists each shipped route once, in strictly increasing
      (supplier, warehouse) order, with its quantity and costs. */
  lemma PlanIsSortedShipments(rows: seq<Row>, solved: map<Pair, real>)
    ensures StrictlySorted(Plan(rows, solved))
    ensures forall l :: l in Plan(rows, solved) <==>
      Key(l) in Cost(rows) && Shipped(solved, Key(l)) && l == LineFor(Cost(rows), solved, Key(l))
  {
    var alloc := Allocation(Cost(rows), solved, Routes(rows));
    var plan := Plan(rows, solved);
    AllocationMembers(Cost(rows), solved, Routes(rows));
    AllocationDistinct(Cost(rows), solved, Routes(rows));
    SortLinesSorted(alloc);
    PermutationKeepsDistinctKeys(alloc, plan);
    SortedDistinctIsStrict(plan);
    forall l ensures l in plan <==> l in alloc {
      assert l in plan <==> l in multiset(plan);
    }
  }

  /** The total is absent when a route of nonzero cost has no value, or
      when no route is priced and `__dummy` has no value; otherwise it is
      the objective, and when the lower bounds hold also the plan's cost. */
  lemma TotalIsPlanCost(rows: seq<Row>, solved: map<Pair, real>, dummySolved: bool)
    ensures Total(rows, solved, dummySolved).Some? <==>
      PricedSolved(Cost(rows), solved) && (dummySolved || SomeRoutePriced(Cost(rows)))
    ensures Total(rows, solved, dummySolved).Some? ==>
      Total(rows, solved, dummySolved).value == Objective(BuildInstance(rows), solved)
    ensures
      ((forall p :: p in Cost(rows) ==> p in solved && solved[p] >= 0.0) && (dummySolved || SomeRoutePriced(Cost(rows)))) ==>
      Total(rows, solved, dummySolved).Some? && Total(rows, solved, dummySolved).value == ShipTotal(Plan(rows, solved))
  {
    var inst := BuildInstance(rows);
    BuildWellFormed(rows);
    SolvedValueIsObjective(inst, solved, dummySolved);
    if forall p :: p in inst.cost ==> p in solved && solved[p] >= 0.0 {
      AllocationTotal(inst.cost, solved, inst.routes);
      TermsValue(inst.cost, inst.routes, solved);
      ShipTotalSort(Allocation(inst.cost, solved, inst.routes));
    }
  }

  /** The run fails at line 45 exactly when nothing is shipped. */
  lemma NothingShippedFails(rows: seq<Row>, solved: map<Pair, real>)
    ensures SortAsWritten(Allocation(Cost(rows), solved, Routes(rows))).MissingColumn? <==>
      forall p :: p in Cost(rows) ==> !Shipped(solved, p)
  {
    AllocationEmpty(Cost(rows), solved, Routes(rows));
    if forall i :: 0 <= i < |Routes(rows)| ==> !Shipped(solved, Routes(rows)[i]) {
      forall p | p in Cost(rows) ensures !Shipped(solved, p) {
        var i :| 0 <= i < |Routes(rows)| && Routes(rows)[i] == p;
      }
    }
  }

  /** `prob` after lines 24-34: the objective over `x`, and one constraint
      per supplier and per warehouse. */
  method Formulate(inst: Instance) returns (prob: Problem)
    requires forall i :: 0 <= i < |inst.routes| ==> inst.routes[i] in inst.cost
    ensures fresh(prob)
    ensures prob.variables == Variables(inst) && prob.objective == ObjectiveTerms(inst)
    ensures PosesExactly(inst, prob.constraints)
    ensures |prob.constraints| == |inst.cap.Keys| + |inst.need.Keys|
  {
    prob := new Problem();
    prob.SetObjective(Variables(inst), ObjectiveTerms(inst));
    prob.PoseCapacityConstraints(inst);
    ghost var caps := prob.constraints;
    prob.PoseDemandConstraints(inst);
    ghost var dems := prob.constraints[|caps|..];
    PosedTogether(inst, caps, dems);
  }

  /** What `main()` ends with for the solver's answer. */
  function RunOutcome(rows: seq<Row>, solved: map<Pair, real>, dummySolved: bool): Outcome
  {
    match SortAsWritten(Allocation(Cost(rows), solved, Routes(rows)))
    case MissingColumn(column) => Failed(column)
    case SortedPlan(plan) =>
      match Total(rows, solved, dummySolved)
      case None => Unformatted(plan)
      case Some(total) => Written(plan, total)
  }

  /** The run fails at line 45 exactly when nothing is shipped; otherwise
      it writes the sorted plan of the shipments, and then the total
      exactly when every route of nonzero cost has a quantity and, if no
      route is priced, `__dummy` has a value. */
  lemma RunOutcomeMeaning(rows: seq<Row>, solved: map<Pair, real>, dummySolved: bool)
    ensures RunOutcome(rows, solved, dummySolved).Failed? <==> forall p :: p in Cost(rows) ==> !Shipped(solved, p)
    ensures RunOutcome(rows, solved, dummySolved).Failed? ==>
      RunOutcome(rows, solved, dummySolved).missingColumn == "supplier"
    ensures RunOutcome(rows, solved, dummySolved).Written? <==>
      && !RunOutcome(rows, solved, dummySolved).Failed?
      && PricedSolved(Cost(rows), solved)
      && (dummySolved || SomeRoutePriced(Cost(rows)))
    ensures RunOutcome(rows, solved, dummySolved).Written? ==>
      Total(rows, solved, dummySolved) == Some(RunOutcome(rows, solved, dummySolved).total)
    ensures !RunOutcome(rows, solved, dummySolved).Failed? ==>
      && RunOutcome(rows, solved, dummySolved).plan == Plan(rows, solved)
      && OutcomeWritesPlan(rows, solved, dummySolved, RunOutcome(rows, solved, dummySolved))
  {
    NothingShippedFails(rows, solved);
    TotalIsPlanCost(rows, solved, dummySolved);
    RunOutcomePlan(rows, solved, dummySolved);
  }

  /** The plan half of `RunOutcomeMeaning`: a run that gets past line 45
      writes `Plan`, with the properties `OutcomeWritesPlan` lists. */
  lemma RunOutcomePlan(rows: seq<Row>, solved: map<Pair, real>, dummySolved: bool)
    ensures !RunOutcome(rows, solved, dummySolved).Failed? ==>
      && RunOutcome(rows, solved, dummySolved).plan == Plan(rows, solved)
      && OutcomeWritesPlan(rows, solved, dummySolved, RunOutcome(rows, solved, dummySolved))
  {
    var outcome := RunOutcome(rows, solved, dummySolved);
    if !outcome.Failed? {
      NothingShippedFails(rows, solved);
      PlanIsSortedShipments(rows, solved);
      TotalIsPlanCost(rows, solved, dummySolved);
      assert outcome.plan == Plan(rows, solved);
    }
  }

  /** A written plan: non-empty, in strictly increasing order, holding
      exactly the shipments; a written total is the objective, and the
      plan's cost when the lower bounds hold (which, with `__dummy` valued
      or some route priced, makes the total present). */
  ghost predicate OutcomeWritesPlan(rows: seq<Row>, solved: map<Pair, real>, dummySolved: bool, outcome: Outcome)
    requires !outcome.Failed?
  {
    && outcome.plan != []
    && StrictlySorted(outcome.plan)
    && (forall l :: l in outcome.plan <==>
         Key(l) in Cost(rows) && Shipped(solved, Key(l)) && l == LineFor(Cost(rows), solved, Key(l)))
    && (outcome.Written? ==> outcome.total == Objective(BuildInstance(rows), solved))
    && (((forall p :: p in Cost(rows) ==> p in solved && solved[p] >= 0.0) && (dummySolved || SomeRoutePriced(Cost(rows)))) ==>
         outcome.Written? && outcome.total == ShipTotal(outcome.plan))
  }

  /** `main()`: the problem it poses is the transportation problem of the
      rows, and it ends as `RunOutcome` says (see `RunOutcomeMeaning`). */
  method RunOptimisation(rows: seq<Row>, solved: map<Pair, real>, dummySolved: bool)
    returns (outcome: Outcome, prob: Problem)
    ensures PosesExactly(BuildInstance(rows), prob.constraints)
    ensures |prob.constraints| == |Cap(rows).Keys| + |Need(rows).Keys|
    ensures prob.SatisfiedBy(solved) <==> Feasible(BuildInstance(rows), solved)
    ensures outcome == RunOutcome(rows, solved, dummySolved)
  {
    var inst := BuildInstance(rows);
    prob := Formulate(inst);
    BuildWellFormed(rows);
    // the LP handed to the solver is the transportation problem
    PosedIffFeasible(inst, prob.constraints, solved);

    // prob.solve(): the answer is `solved` and `dummySolved`
    var alloc := ExtractAllocation(inst, solved);
    match SortAsWritten(alloc)
    case MissingColumn(column) =>
      outcome := Failed(column);
    case SortedPlan(plan) =>
      // value(prob.objective), then the formatting at line 49
      match SolvedValue(prob.objective, solved, dummySolved)
      case None =>
        outcome := Unformatted(plan);
      case Some(total) =>
        outcome := Written(plan, total);
  }

  /** The input of the finding at line 45: one route with zero demand, and
      the all-zero answer, which is feasible. `main()` fails on it. */
  lemma ZeroDemandRunFails(dummySolved: bool)
    ensures Feasible(BuildInstance([Row("S1", "W1", 2.0, 100.0, 0.0)]), map[("S1", "W1") := 0.0])
    ensures RunOutcome([Row("S1", "W1", 2.0, 100.0, 0.0)], map[("S1", "W1") := 0.0], dummySolved) == Failed("supplier")
  {
    ZeroDemandReportFails();
  }

  /** A route of cost 0 leaves no term in the objective, so its missing
      quantity does not make the total `None`; the `__dummy` term the solve
      leaves behind does, unless the solver gave it a value. */
  lemma ZeroCostRouteScenario()
    ensures Total([Row("S1", "W1", 0.0, 1.0, 0.0)], map[], true) == Some(0.0)
    ensures Total([Row("S1", "W1", 0.0, 1.0, 0.0)], map[], false) == None
  {
    var rows := [Row("S1", "W1", 0.0, 1.0, 0.0)];
    assert rows[..0] == [];
    var rs := Routes(rows);
    assert rs == [("S1", "W1")] && rs[..0] == [];
    assert ObjectiveTerms(BuildInstance(rows)) == [];
  }

  /** A shipped route of cost 0 and no other: the plan is written, and the
      total is written exactly when the solver gave `__dummy` a value. */
  lemma FreeRouteRun()
    ensures RunOutcome([Row("S1", "W1", 0.0, 1.0, 1.0)], map[("S1", "W1") := 1.0], true).Written?
    ensures RunOutcome([Row("S1", "W1", 0.0, 1.0, 1.0)], map[("S1", "W1") := 1.0], false).Unformatted?
  {
    var rows, q := [Row("S1", "W1", 0.0, 1.0, 1.0)], map[("S1", "W1") := 1.0];
    assert rows[..0] == [];
    assert Cost(rows) == map[("S1", "W1") := 0.0];
    assert !SomeRoutePriced(Cost(rows));
    assert Shipped(q, ("S1", "W1"));
    RunOutcomeMeaning(rows, q, true);
    RunOutcomeMeaning(rows, q, false);
  }

  /** One supplier serving two warehouses, and a solver answer that meets
      both demands. */
  const ScenarioRows: seq<Row> := [Row("S1", "W1", 2.0, 100.0, 60.0), Row("S1", "W2", 3.0, 100.0, 40.0)]
  const ScenarioAnswer: map<Pair, real> := map[("S1", "W1") := 60.0, ("S1", "W2") := 40.0]

  lemma ScenarioInstance()
    ensures Cost(ScenarioRows) == map[("S1", "W1") := 2.0, ("S1", "W2") := 3.0]
    ensures Routes(ScenarioRows) == [("S1", "W1"), ("S1", "W2")]
  {
    assert ScenarioRows[..1] == [ScenarioRows[0]] && ScenarioRows[..1][..0] == [];
  }

  /** An answer that ships on ("S1", "W1") but has no quantity for the
      priced route ("S1", "W2"): the plan is written, and formatting the
      total `None` then fails. */
  lemma UnpricedRouteRun(dummySolved: bool)
    ensures RunOutcome(ScenarioRows, map[("S1", "W1") := 60.0], dummySolved).Unformatted?
  {
    var partial := map[("S1", "W1") := 60.0];
    ScenarioInstance();
    RunOutcomeMeaning(ScenarioRows, partial, dummySolved);
    assert Shipped(partial, ("S1", "W1"));
    assert ("S1", "W2") in Cost(ScenarioRows) && ("S1", "W2") !in partial;
  }

  lemma ScenarioAllocation()
    ensures Allocation(Cost(ScenarioRows), ScenarioAnswer, Routes(ScenarioRows)) ==
      [Line("S1", "W1", 60.0, 2.0, 120.0), Line("S1", "W2", 40.0, 3.0, 120.0)]
  {
    ScenarioInstance();
    var cost, rs := Cost(ScenarioRows), Routes(ScenarioRows);
    assert rs[..1] == [rs[0]] && rs[..1][..0] == [];
    assert Allocation(cost, ScenarioAnswer, rs[..1]) == [Line("S1", "W1", 60.0, 2.0, 120.0)];
  }

  lemma ScenarioSort()
    ensures SortLines([Line("S1", "W1", 60.0, 2.0, 120.0), Line("S1", "W2", 40.0, 3.0, 120.0)]) ==
      [Line("S1", "W1", 60.0, 2.0, 120.0), Line("S1", "W2", 40.0, 3.0, 120.0)]
  {
    var l1, l2 := Line("S1", "W1", 60.0, 2.0, 120.0), Line("S1", "W2", 40.0, 3.0, 120.0);
    assert !Less("W2", "W1") by {
      assert "W1"[1..] == "1" && "W2"[1..] == "2";
      assert !Less("2", "1");
    }
    assert [l1, l2][1..] == [l2] && [l2][1..] == [];
    assert SortLines([l2]) == [l2];
  }

  lemma ScenarioPlan()
    ensures Plan(ScenarioRows, ScenarioAnswer) ==
      [Line("S1", "W1", 60.0, 2.0, 120.0), Line("S1", "W2", 40.0, 3.0, 120.0)]
  {
    ScenarioAllocation();
    ScenarioSort();
  }

  /** The plan lists both routes in order with their costs, and the total
      is 60 * 2 + 40 * 3. */
  lemma TwoWarehouseScenario(dummySolved: bool)
    ensures Plan(ScenarioRows, ScenarioAnswer) ==
      [Line("S1", "W1", 60.0, 2.0, 120.0), Line("S1", "W2", 40.0, 3.0, 120.0)]
    ensures Total(ScenarioRows, ScenarioAnswer, dummySolved) == Some(240.0)
  {
    ScenarioPlan();
    ScenarioTotal(dummySolved);
  }

  lemma ScenarioTotal(dummySolved: bool)
    ensures Total(ScenarioRows, ScenarioAnswer, dummySolved) == Some(240.0)
  {
    var terms := ObjectiveTerms(BuildInstance(ScenarioRows));
    ScenarioTerms();
    ScenarioValue();
    assert terms != [];
    assert Total(ScenarioRows, ScenarioAnswer, dummySolved) == ExpressionValue(terms, ScenarioAnswer);
  }

  lemma ScenarioValue()
    ensures ExpressionValue([Term(2.0, ("S1", "W1")), Term(3.0, ("S1", "W2"))], ScenarioAnswer) == Some(240.0)
  {
    var t1, t2 := Term(2.0, ("S1", "W1")), Term(3.0, ("S1", "W2"));
    assert [t1, t2][..1] == [t1] && [t1][..0] == [];
    assert ExpressionValue([t1], ScenarioAnswer) == Some(120.0);
  }

  lemma ScenarioTerms()
    ensures ObjectiveTerms(BuildInstance(ScenarioRows)) == [Term(2.0, ("S1", "W1")), Term(3.0, ("S1", "W2"))]
  {
    ScenarioInstance();
    var cost, rs := Cost(ScenarioRows), Routes(ScenarioRows);
    assert rs[..1] == [rs[0]] && rs[..1][..0] == [];
    assert TermsOf(cost, rs[..1]) == [Term(2.0, ("S1", "W1"))];
  }
}
