/**
 The linear program `main()` poses (src/run_optimisation.py, lines 24-34):
 one non-negative variable per route, the cost-weighted objective, one
 capacity constraint per supplier and one demand constraint per warehouse.
 A solved quantity assignment is a map from routes to reals; a route
 missing from the map is a variable whose `value()` is `None`.
 */
module Formulation {
  import opened Lex
  import opened Sums
  import opened Build

  datatype Option<T> = None | Some(value: T)

  /** `x`: one variable per key of `cost`, mapped to its lower bound 0
      (line 26). */
  function Variables(inst: Instance): map<Pair, real>
  {
    map p | p in inst.cost :: 0.0
  }

  /** One `coeff * x[route]` term of a linear expression. */
  datatype Term = Term(coeff: real, route: Pair)

  /** The terms `cost[s,w] * x[s,w]` along a sequence of routes. PuLP's
      product of an expression with the number 0 is the empty expression,
      so a route of cost 0 contributes no term. */
  function TermsOf(cost: map<Pair, real>, rs: seq<Pair>): seq<Term>
    requires forall i :: 0 <= i < |rs| ==> rs[i] in cost
  {
    if rs == [] then []
    else
      var init, p := TermsOf(cost, rs[..|rs| - 1]), rs[|rs| - 1];
      if cost[p] == 0.0 then init else init + [Term(cost[p], p)]
  }

  /** `lpSum(cost[s,w] * x[s,w] for (s,w) in cost)` (line 28), in the
      iteration order of `cost`. */
  function ObjectiveTerms(inst: Instance): seq<Term>
    requires forall i :: 0 <= i < |inst.routes| ==> inst.routes[i] in inst.cost
  {
    TermsOf(inst.cost, inst.routes)
  }

  /** PuLP's `value()` of a linear expression: `None` as soon as one of
      its variables has no value, otherwise the weighted sum. */
  function ExpressionValue(terms: seq<Term>, q: map<Pair, real>): Option<real>
  {
    if terms == [] then Some(0.0)
    else
      var t, prefix := terms[|terms| - 1], ExpressionValue(terms[..|terms| - 1], q);
      if prefix.Some? && t.route in q then Some(prefix.value + t.coeff * q[t.route]) else None
  }

  lemma ExpressionValueSnoc(terms: seq<Term>, t: Term, q: map<Pair, real>)
    ensures ExpressionValue(terms + [t], q).Some? <==> ExpressionValue(terms, q).Some? && t.route in q
    ensures ExpressionValue(terms + [t], q).Some? ==>
      ExpressionValue(terms + [t], q).value == ExpressionValue(terms, q).value + t.coeff * q[t.route]
  {
    assert (terms + [t])[..|terms|] == terms;
  }

  /** Every route with a nonzero cost, so every variable of the objective,
      has a quantity. */
  predicate PricedSolved(cost: map<Pair, real>, q: map<Pair, real>)
  {
    forall p :: p in cost && cost[p] != 0.0 ==> p in q
  }

  /** Some route has a nonzero cost, so the objective has a term. */
  predicate SomeRoutePriced(cost: map<Pair, real>)
  {
    exists p :: p in cost && cost[p] != 0.0
  }

  /** Cost times solved quantity on every route that has a quantity. */
  function Products(cost: map<Pair, real>, q: map<Pair, real>): map<Pair, real>
  {
    map p | p in cost && p in q :: cost[p] * q[p]
  }

  /** The objective as a function of the quantity map: the sum over the
      keys of `cost` of `cost[s,w] * x[s,w]`, in no particular order. */
  ghost function Objective(inst: Instance, q: map<Pair, real>): real
  {
    SumOver(inst.cost.Keys, Products(inst.cost, q))
  }

  /** The expression has a value exactly when every route of nonzero cost
      along it has a quantity. */
  lemma {:induction false} TermsDefined(cost: map<Pair, real>, rs: seq<Pair>, q: map<Pair, real>)
    requires forall i :: 0 <= i < |rs| ==> rs[i] in cost
    ensures ExpressionValue(TermsOf(cost, rs), q).Some? <==>
      forall i :: 0 <= i < |rs| && cost[rs[i]] != 0.0 ==> rs[i] in q
  {
    if rs != [] {
      var init, last := rs[..|rs| - 1], rs[|rs| - 1];
      TermsDefined(cost, init, q);
      assert forall i :: 0 <= i < |init| ==> init[i] == rs[i];
      if cost[last] != 0.0 {
        assert TermsOf(cost, rs) == TermsOf(cost, init) + [Term(cost[last], last)];
        ExpressionValueSnoc(TermsOf(cost, init), Term(cost[last], last), q);
      }
    }
  }

  /** When those quantities are present, the value is the sum of cost times
      quantity along all the routes: the dropped routes add 0. */
  lemma {:induction false} TermsValue(cost: map<Pair, real>, rs: seq<Pair>, q: map<Pair, real>)
    requires forall i :: 0 <= i < |rs| ==> rs[i] in cost && (cost[rs[i]] != 0.0 ==> rs[i] in q)
    ensures ExpressionValue(TermsOf(cost, rs), q).Some?
    ensures ExpressionValue(TermsOf(cost, rs), q).value == SumSeq(rs, Products(cost, q))
  {
    if rs != [] {
      var init, last := rs[..|rs| - 1], rs[|rs| - 1];
      assert forall i :: 0 <= i < |init| ==> init[i] == rs[i];
      TermsValue(cost, init, q);
      var terms := TermsOf(cost, init);
      if cost[last] == 0.0 {
        assert TermsOf(cost, rs) == terms;
        if last in q {
          assert ValueOf(Products(cost, q), last) == 0.0 * q[last];
        }
      } else {
        assert TermsOf(cost, rs) == terms + [Term(cost[last], last)];
        ExpressionValueSnoc(terms, Term(cost[last], last), q);
        assert ValueOf(Products(cost, q), last) == cost[last] * q[last];
      }
    }
  }

  /** The value PuLP reports for the objective is `None` exactly when some
      variable of the objective (a route of nonzero cost) has no value, and
      otherwise the objective of the quantity map, whatever the dict order. */
  lemma ObjectiveValueIsObjective(inst: Instance, q: map<Pair, real>)
    requires WellFormed(inst)
    ensures ExpressionValue(ObjectiveTerms(inst), q).Some? <==> PricedSolved(inst.cost, q)
    ensures ExpressionValue(ObjectiveTerms(inst), q).Some? ==>
      ExpressionValue(ObjectiveTerms(inst), q).value == Objective(inst, q)
  {
    TermsDefined(inst.cost, inst.routes, q);
    if PricedSolved(inst.cost, q) {
      TermsValue(inst.cost, inst.routes, q);
      SumSeqIsSumOver(inst.routes, Products(inst.cost, q));
    } else {
      var p :| p in inst.cost && inst.cost[p] != 0.0 && p !in q;
      var i :| 0 <= i < |inst.routes| && inst.routes[i] == p;
    }
  }

  /** The expression has no term exactly when every route along it costs 0. */
  lemma {:induction false} NoTermsIffFree(cost: map<Pair, real>, rs: seq<Pair>)
    requires forall i :: 0 <= i < |rs| ==> rs[i] in cost
    ensures TermsOf(cost, rs) == [] <==> forall i :: 0 <= i < |rs| ==> cost[rs[i]] == 0.0
  {
    if rs != [] {
      var init := rs[..|rs| - 1];
      assert forall i :: 0 <= i < |init| ==> init[i] == rs[i];
      NoTermsIffFree(cost, init);
    }
  }

  /** `value(prob.objective)` after `prob.solve()` (line 36). PuLP's solve
      gives an objective with no terms the variable `__dummy` (bounds 0 to
      0) and subtracts it again afterwards, which leaves `__dummy` in the
      expression with coefficient 0. So the value then also needs a value
      for `__dummy`; `dummySolved` says whether the solver gave it one. */
  function SolvedValue(terms: seq<Term>, q: map<Pair, real>, dummySolved: bool): Option<real>
  {
    if terms == [] && !dummySolved then None else ExpressionValue(terms, q)
  }

  /** After the solve, the objective's value is `None` exactly when a route
      of nonzero cost has no value, or when no route is priced and
      `__dummy` has no value; otherwise it is the objective. */
  lemma SolvedValueIsObjective(inst: Instance, q: map<Pair, real>, dummySolved: bool)
    requires WellFormed(inst)
    ensures SolvedValue(ObjectiveTerms(inst), q, dummySolved).Some? <==>
      PricedSolved(inst.cost, q) && (dummySolved || SomeRoutePriced(inst.cost))
    ensures SolvedValue(ObjectiveTerms(inst), q, dummySolved).Some? ==>
      SolvedValue(ObjectiveTerms(inst), q, dummySolved).value == Objective(inst, q)
  {
    ObjectiveValueIsObjective(inst, q);
    NoTermsIffFree(inst.cost, inst.routes);
    if SomeRoutePriced(inst.cost) {
      var p :| p in inst.cost && inst.cost[p] != 0.0;
      var i :| 0 <= i < |inst.routes| && inst.routes[i] == p;
    }
  }

  /** A constraint posed by `prob += ...`, labelled with the key of the
      loop iteration that posed it. */
  datatype Constraint =
    | Capacity(supplier: string, terms: set<Pair>, bound: real)
    | Demand(warehouse: string, terms: set<Pair>, bound: real)

  /** The variables of `lpSum(x[s,w] for w in need if (s,w) in x)` (line 31). */
  function CapacityTerms(inst: Instance, s: string): set<Pair>
  {
    set p | p in Variables(inst) && p.0 == s && p.1 in inst.need
  }

  /** The variables of `lpSum(x[s,w] for s in cap if (s,w) in x)` (line 34). */
  function DemandTerms(inst: Instance, w: string): set<Pair>
  {
    set p | p in Variables(inst) && p.1 == w && p.0 in inst.cap
  }

  function CapacityConstraint(inst: Instance, s: string): Constraint
    requires s in inst.cap
  {
    Capacity(s, CapacityTerms(inst, s), inst.cap[s])
  }

  function DemandConstraint(inst: Instance, w: string): Constraint
    requires w in inst.need
  {
    Demand(w, DemandTerms(inst, w), inst.need[w])
  }

  ghost predicate Holds(c: Constraint, q: map<Pair, real>)
  {
    match c
    case Capacity(_, t, b) => SumOver(t, q) <= b
    case Demand(_, t, b) => SumOver(t, q) >= b
  }

  /** The posed problem accepts `q`: every variable has a value at or above
      its lower bound and every constraint holds. */
  ghost predicate Satisfies(x: map<Pair, real>, cs: seq<Constraint>, q: map<Pair, real>)
  {
    && (forall p :: p in x ==> p in q && q[p] >= x[p])
    && (forall i :: 0 <= i < |cs| ==> Holds(cs[i], q))
  }

  /** All routes out of supplier `s`. */
  ghost function Outgoing(inst: Instance, s: string): set<Pair>
  {
    set p | p in inst.cost && p.0 == s
  }

  /** All routes into warehouse `w`. */
  ghost function Incoming(inst: Instance, w: string): set<Pair>
  {
    set p | p in inst.cost && p.1 == w
  }

  /** The transportation constraints stated directly on the routes:
      non-negative quantities, each supplier's outflow within its capacity,
      each warehouse's inflow covering its demand. */
  ghost predicate Feasible(inst: Instance, q: map<Pair, real>)
  {
    && (forall p :: p in inst.cost ==> p in q && q[p] >= 0.0)
    && (forall s :: s in inst.cap ==> SumOver(Outgoing(inst, s), q) <= inst.cap[s])
    && (forall w :: w in inst.need ==> SumOver(Incoming(inst, w), q) >= inst.need[w])
  }

  /** The filter `if (s,w) in x` over the warehouses of `need` picks out
      exactly the routes leaving `s`, because no route ends at an
      undeclared warehouse. */
  lemma CapacityCoverage(inst: Instance, s: string)
    requires WellFormed(inst)
    ensures CapacityTerms(inst, s) == Outgoing(inst, s)
  {
    forall p | p in Outgoing(inst, s) ensures p in CapacityTerms(inst, s) {
      assert p == (s, p.1) && p.1 in inst.need;
    }
  }

  /** Symmetrically for the demand filter over the suppliers of `cap`. */
  lemma DemandCoverage(inst: Instance, w: string)
    requires WellFormed(inst)
    ensures DemandTerms(inst, w) == Incoming(inst, w)
  {
    forall p | p in Incoming(inst, w) ensures p in DemandTerms(inst, w) {
      assert p == (p.0, w) && p.0 in inst.cap;
    }
  }

  /** The loop and key that posed a constraint. */
  function Label(c: Constraint): (bool, string)
  {
    match c
    case Capacity(s, _, _) => (true, s)
    case Demand(w, _, _) => (false, w)
  }

  /** No supplier and no warehouse is the key of two constraints. */
  predicate LabelsDistinct(cs: seq<Constraint>)
  {
    forall i, j :: 0 <= i < j < |cs| ==> Label(cs[i]) != Label(cs[j])
  }

  predicate IsCapacityConstraint(inst: Instance, c: Constraint)
  {
    c.Capacity? && c.supplier in inst.cap && c == CapacityConstraint(inst, c.supplier)
  }

  predicate IsDemandConstraint(inst: Instance, c: Constraint)
  {
    c.Demand? && c.warehouse in inst.need && c == DemandConstraint(inst, c.warehouse)
  }

  /** `cs` is what the two loops pose: a capacity constraint for every
      supplier, a demand constraint for every warehouse, no key twice, and
      nothing else. */
  ghost predicate PosesExactly(inst: Instance, cs: seq<Constraint>)
  {
    && LabelsDistinct(cs)
    && (forall i :: 0 <= i < |cs| ==> IsCapacityConstraint(inst, cs[i]) || IsDemandConstraint(inst, cs[i]))
    && (forall s :: s in inst.cap ==> CapacityConstraint(inst, s) in cs)
    && (forall w :: w in inst.need ==> DemandConstraint(inst, w) in cs)
  }

  /** `cs` holds a capacity constraint for every supplier, each once, and
      nothing else. */
  ghost predicate CapacitiesPosed(inst: Instance, cs: seq<Constraint>)
  {
    && LabelsDistinct(cs)
    && (forall i :: 0 <= i < |cs| ==> IsCapacityConstraint(inst, cs[i]))
    && (forall s :: s in inst.cap ==> CapacityConstraint(inst, s) in cs)
  }

  /** `cs` holds a demand constraint for every warehouse, each once, and
      nothing else. */
  ghost predicate DemandsPosed(inst: Instance, cs: seq<Constraint>)
  {
    && LabelsDistinct(cs)
    && (forall i :: 0 <= i < |cs| ==> IsDemandConstraint(inst, cs[i]))
    && (forall w :: w in inst.need ==> DemandConstraint(inst, w) in cs)
  }

  /** The capacity loop's constraints followed by the demand loop's are
      what the two loops pose together. */
  lemma PosedTogether(inst: Instance, caps: seq<Constraint>, dems: seq<Constraint>)
    requires CapacitiesPosed(inst, caps) && DemandsPosed(inst, dems)
    ensures PosesExactly(inst, caps + dems)
  {
    var cs := caps + dems;
    forall i, j | 0 <= i < j < |cs| ensures Label(cs[i]) != Label(cs[j]) {
      if j < |caps| {
        assert cs[i] == caps[i] && cs[j] == caps[j];
      } else if i < |caps| {
        assert Label(cs[i]).0 && !Label(cs[j]).0;
      } else {
        assert cs[i] == dems[i - |caps|] && cs[j] == dems[j - |caps|];
      }
    }
  }

  /** Regrouping one appended constraint (a hint the Pose loops use). */
  lemma AppendAssoc(a: seq<Constraint>, b: seq<Constraint>, c: Constraint)
    ensures a + b + [c] == a + (b + [c])
  {
  }

  /** The two parts of `a + b` (a hint the Pose loops use). */
  lemma SplitAppend(a: seq<Constraint>, b: seq<Constraint>)
    ensures (a + b)[..|a|] == a && (a + b)[|a|..] == b
  {
  }

  /** The capacity loop's state: `posed` holds one constraint for each
      supplier already taken out of `todo`, each once. */
  ghost predicate CapacitiesSoFar(inst: Instance, posed: seq<Constraint>, todo: set<string>)
  {
    && todo <= inst.cap.Keys
    && |posed| == |inst.cap.Keys - todo|
    && (forall i :: 0 <= i < |posed| ==> IsCapacityConstraint(inst, posed[i]) && posed[i].supplier !in todo)
    && LabelsDistinct(posed)
    && (forall s :: s in inst.cap && s !in todo ==> CapacityConstraint(inst, s) in posed)
  }

  lemma CapacityStep(inst: Instance, posed: seq<Constraint>, todo: set<string>, s: string)
    requires CapacitiesSoFar(inst, posed, todo) && s in todo
    ensures CapacitiesSoFar(inst, posed + [CapacityConstraint(inst, s)], todo - {s})
  {
    assert inst.cap.Keys - (todo - {s}) == (inst.cap.Keys - todo) + {s};
    var c := CapacityConstraint(inst, s);
    assert forall i :: 0 <= i < |posed| ==> Label(posed[i]) != Label(c);
  }

  lemma CapacitiesStart(inst: Instance)
    ensures CapacitiesSoFar(inst, [], inst.cap.Keys)
  {
    assert inst.cap.Keys - inst.cap.Keys == {};
  }

  lemma CapacitiesDone(inst: Instance, posed: seq<Constraint>)
    requires CapacitiesSoFar(inst, posed, {})
    ensures CapacitiesPosed(inst, posed)
    ensures |posed| == |inst.cap.Keys|
  {
    assert inst.cap.Keys - {} == inst.cap.Keys;
  }

  /** The demand loop's state, likewise for warehouses. */
  ghost predicate DemandsSoFar(inst: Instance, posed: seq<Constraint>, todo: set<string>)
  {
    && todo <= inst.need.Keys
    && |posed| == |inst.need.Keys - todo|
    && (forall i :: 0 <= i < |posed| ==> IsDemandConstraint(inst, posed[i]) && posed[i].warehouse !in todo)
    && LabelsDistinct(posed)
    && (forall w :: w in inst.need && w !in todo ==> DemandConstraint(inst, w) in posed)
  }

  lemma DemandStep(inst: Instance, posed: seq<Constraint>, todo: set<string>, w: string)
    requires DemandsSoFar(inst, posed, todo) && w in todo
    ensures DemandsSoFar(inst, posed + [DemandConstraint(inst, w)], todo - {w})
  {
    assert inst.need.Keys - (todo - {w}) == (inst.need.Keys - todo) + {w};
    var c := DemandConstraint(inst, w);
    assert forall i :: 0 <= i < |posed| ==> Label(posed[i]) != Label(c);
  }

  lemma DemandsStart(inst: Instance)
    ensures DemandsSoFar(inst, [], inst.need.Keys)
  {
    assert inst.need.Keys - inst.need.Keys == {};
  }

  lemma DemandsDone(inst: Instance, posed: seq<Constraint>)
    requires DemandsSoFar(inst, posed, {})
    ensures DemandsPosed(inst, posed)
    ensures |posed| == |inst.need.Keys|
  {
    assert inst.need.Keys - {} == inst.need.Keys;
  }

  /** Whatever order the loops run in, the posed problem accepts a quantity
      map exactly when it is feasible for the transportation problem. */
  lemma PosedIffFeasible(inst: Instance, cs: seq<Constraint>, q: map<Pair, real>)
    requires WellFormed(inst)
    requires PosesExactly(inst, cs)
    ensures Satisfies(Variables(inst), cs, q) <==> Feasible(inst, q)
  {
    if Satisfies(Variables(inst), cs, q) {
      SatisfiedIsFeasible(inst, cs, q);
    }
    if Feasible(inst, q) {
      FeasibleIsSatisfied(inst, cs, q);
    }
  }

  lemma SatisfiedIsFeasible(inst: Instance, cs: seq<Constraint>, q: map<Pair, real>)
    requires WellFormed(inst)
    requires PosesExactly(inst, cs)
    requires Satisfies(Variables(inst), cs, q)
    ensures Feasible(inst, q)
  {
    forall s | s in inst.cap ensures SumOver(Outgoing(inst, s), q) <= inst.cap[s] {
      CapacityCoverage(inst, s);
      var i :| 0 <= i < |cs| && cs[i] == CapacityConstraint(inst, s);
      assert Holds(cs[i], q);
    }
    forall w | w in inst.need ensures SumOver(Incoming(inst, w), q) >= inst.need[w] {
      DemandCoverage(inst, w);
      var i :| 0 <= i < |cs| && cs[i] == DemandConstraint(inst, w);
      assert Holds(cs[i], q);
    }
  }

  lemma FeasibleIsSatisfied(inst: Instance, cs: seq<Constraint>, q: map<Pair, real>)
    requires WellFormed(inst)
    requires PosesExactly(inst, cs)
    requires Feasible(inst, q)
    ensures Satisfies(Variables(inst), cs, q)
  {
    forall i | 0 <= i < |cs| ensures Holds(cs[i], q) {
      if cs[i].Capacity? {
        CapacityCoverage(inst, cs[i].supplier);
      } else {
        DemandCoverage(inst, cs[i].warehouse);
      }
    }
  }

  /** The `LpProblem` object that `main()` fills in with `prob += ...`. */
  class Problem {
    var variables: map<Pair, real>
    var objective: seq<Term>
    var constraints: seq<Constraint>

    /** `LpProblem("MinCostShipping", LpMinimize)` (line 24). */
    constructor ()
      ensures variables == map[] && objective == [] && constraints == []
    {
      variables := map[];
      objective := [];
      constraints := [];
    }

    /** The quantity map is accepted by the problem as posed so far. */
    ghost predicate SatisfiedBy(q: map<Pair, real>)
      reads this
    {
      Satisfies(variables, constraints, q)
    }

    /** `prob += <expression>` (line 28) sets the objective; `variables`
        records `x` with its lower bounds of 0 (line 26). */
    method SetObjective(x: map<Pair, real>, terms: seq<Term>)
      modifies this
      ensures variables == x && objective == terms
      ensures constraints == old(constraints)
    {
      variables := x;
      objective := terms;
    }

    /** `for s in cap: prob += lpSum(...) <= cap[s]` (lines 30-31): one
        constraint per supplier, in whatever order the dict yields them. */
    method PoseCapacityConstraints(inst: Instance)
      modifies this
      ensures variables == old(variables) && objective == old(objective)
      ensures |constraints| == |old(constraints)| + |inst.cap.Keys|
      ensures constraints[..|old(constraints)|] == old(constraints)
      ensures constraints == old(constraints) + constraints[|old(constraints)|..]
      ensures CapacitiesPosed(inst, constraints[|old(constraints)|..])
    {
      var todo := inst.cap.Keys;
      ghost var posed: seq<Constraint> := [];
      CapacitiesStart(inst);
      while todo != {}
        invariant variables == old(variables) && objective == old(objective)
        invariant constraints == old(constraints) + posed
        invariant CapacitiesSoFar(inst, posed, todo)
        decreases |todo|
      {
        var s :| s in todo;
        var c := CapacityConstraint(inst, s);
        CapacityStep(inst, posed, todo, s);
        AppendAssoc(old(constraints), posed, c);
        constraints := constraints + [c];
        posed := posed + [c];
        todo := todo - {s};
      }
      SplitAppend(old(constraints), posed);
      CapacitiesDone(inst, posed);
    }

    /** `for w in need: prob += lpSum(...) >= need[w]` (lines 33-34): one
        constraint per warehouse. */
    method PoseDemandConstraints(inst: Instance)
      modifies this
      ensures variables == old(variables) && objective == old(objective)
      ensures |constraints| == |old(constraints)| + |inst.need.Keys|
      ensures constraints[..|old(constraints)|] == old(constraints)
      ensures constraints == old(constraints) + constraints[|old(constraints)|..]
      ensures DemandsPosed(inst, constraints[|old(constraints)|..])
    {
      var todo := inst.need.Keys;
      ghost var posed: seq<Constraint> := [];
      DemandsStart(inst);
      while todo != {}
        invariant variables == old(variables) && objective == old(objective)
        invariant constraints == old(constraints) + posed
        invariant DemandsSoFar(inst, posed, todo)
        decreases |todo|
      {
        var w :| w in todo;
        var c := DemandConstraint(inst, w);
        DemandStep(inst, posed, todo, w);
        AppendAssoc(old(constraints), posed, c);
        constraints := constraints + [c];
        posed := posed + [c];
        todo := todo - {w};
      }
      SplitAppend(old(constraints), posed);
      DemandsDone(inst, posed);
    }
  }
}
