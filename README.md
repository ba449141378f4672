# Min-cost shipment planning: a Dafny model of `run_optimisation.py`

The program reads a long-form table of (supplier, warehouse, cost,
capacity, demand) rows. From it, it builds a transportation problem:

- a demand per warehouse;
- a capacity per supplier;
- a unit cost per route.

It poses the problem as a linear program with PuLP and hands it to an
external LP solver. From the solver's answer it writes a shipment plan,
sorted by (supplier, warehouse), and the total cost.

This project models that pipeline from the rows to the report. It proves:

- what each of the three dictionaries holds;
- that the constraints posed are exactly the transportation constraints, whatever order the loops run in;
- what the plan holds and that it is sorted;
- when the run writes a total, and what that total equals.

The solver is not modelled. Its answer is two parameters. `solved: map<Pair, real>` holds any quantity for each variable; a route missing from the map is a variable whose `value()` is `None`. `dummySolved: bool` says whether the solver gave a value to PuLP's `__dummy` variable. PuLP's `solve` adds that variable to an objective with no terms and leaves it there with coefficient 0 (`SolvedValue`).

Modules, one file each:

- `Lex` (`lex.dfy`): Python's `<` on strings, and the (supplier, warehouse) order `sort_values` applies.
- `Sums` (`sums.dfy`): exact sums of quantities, both over a set of keys in no order and along a sequence.
- `Build` (`build.dfy`): `need`, `cap` and `cost` as built from the rows (lines 20-22), and the instance the LP is posed on.
- `Formulation` (`formulation.dfy`): the variables, the objective, PuLP's evaluation of an expression, and the constraints. The `Problem` class is the `LpProblem` that the constraint loops fill in.
- `Extraction` (`extraction.dfy`): the allocation loop as a method, the sort, and the plan's cost.
- `Optimisation` (`optimisation.dfy`): `main()` from the rows to the report, and one worked scenario.

The code aggregates by maximum: `need` holds the largest demand listed for each warehouse and `cap` the largest capacity listed for each supplier. A repeated route keeps the cost of its last row. Supply and demand are not balanced, the input is not validated, and the LP goes to PuLP's default external solver.

`main()` follows line 45 as written: when nothing is shipped, sorting the empty allocation raises `KeyError` and the run ends in the handler (see "## Findings"). When something is shipped but `value(prob.objective)` is `None`, the plan is written and then formatting `None` at line 49 raises `TypeError`, which also ends in the handler.

Reals are exact: `real` stands for Python's `float`. Strings are `seq<char>`.

## Model

| member | source | states |
|---|---|---|
| Build.NeedIsMaxDemand | src/run_optimisation.py:20 | `Need` (`need`) has one key per warehouse in the rows. Its value is the demand of some row of that warehouse, and no row of that warehouse has a larger demand. |
| Build.CapIsMaxCapacity | src/run_optimisation.py:21 | `Cap` (`cap`) has one key per supplier in the rows. Its value is the capacity of some row of that supplier, and no row of that supplier has a larger capacity. |
| Build.GroupMaxIsMax | src/run_optimisation.py:20-21 | For any row key and value, `GroupMax` of a key equals some row's value and bounds every row value of that key. |
| Build.CostIsLastRow | src/run_optimisation.py:22 | `Cost` (`cost`) has one key per distinct route in the rows. Its value is the cost of the last row with that route. |
| Build.Routes | src/run_optimisation.py:22 | The dict's iteration order lists every key of `cost` exactly once and nothing else. |
| Build.BuildWellFormed | src/run_optimisation.py:20-22 | In `BuildInstance`, every route's supplier is a key of `cap` and its warehouse a key of `need`. Routes are listed once each. |
| Build.BuildEndpointsAreDeclared | src/run_optimisation.py:20-22 | Conversely, the keys of `cap` and `need` are exactly the route ends: no supplier or warehouse lacks a route. |
| Formulation.ExpressionValueSnoc | src/run_optimisation.py:46 | Adding a term to an expression keeps its `ExpressionValue` (PuLP's `value()`) defined exactly when the term's variable has a value. The value then grows by coefficient times quantity. |
| Formulation.TermsDefined | src/run_optimisation.py:28-46 | The objective expression (`TermsOf`, which drops the empty product `0 * x` of a zero-cost route) has a value exactly when every route of nonzero cost along it has a quantity. |
| Formulation.TermsValue | src/run_optimisation.py:28-46 | When every route of nonzero cost has a quantity, the expression's value is the sum of cost times quantity along all the routes. |
| Formulation.ObjectiveValueIsObjective | src/run_optimisation.py:28 | `value()` of the expression `ObjectiveTerms` posed at line 28 is `None` exactly when some route of nonzero cost has no value (`PricedSolved` fails). Otherwise it is the order-free `Objective`: the sum over all routes of cost times quantity. |
| Formulation.NoTermsIffFree | src/run_optimisation.py:28 | The objective expression has no term exactly when every route costs 0. |
| Formulation.SolvedValueIsObjective | src/run_optimisation.py:36-46 | `value(prob.objective)` after the solve (`SolvedValue`) is `None` exactly when a route of nonzero cost has no value, or when no route has a nonzero cost and `__dummy` has no value. Otherwise it is `Objective`. |
| Formulation.CapacityCoverage | src/run_optimisation.py:30-31 | `CapacityTerms`, the filtered sum in a supplier's capacity constraint, ranges over exactly the routes leaving that supplier. |
| Formulation.DemandCoverage | src/run_optimisation.py:33-34 | `DemandTerms`, the filtered sum in a warehouse's demand constraint, ranges over exactly the routes entering that warehouse. |
| Formulation.PosedTogether | src/run_optimisation.py:30-34 | The capacity loop's constraints followed by the demand loop's, each loop posing every key once, give one constraint per supplier and per warehouse, no key twice, and nothing else. |
| Formulation.PosedIffFeasible | src/run_optimisation.py:26-34 | A problem posing one capacity constraint per supplier and one demand constraint per warehouse, in any order, with lower bound 0 on each variable of `Variables`, accepts a quantity map exactly when that map is feasible for the transportation problem. Feasible means non-negative, within every capacity and covering every demand. |
| Formulation.Problem.constructor | src/run_optimisation.py:24 | A new `LpProblem` has no variables, no objective and no constraints. |
| Formulation.Problem.SetObjective | src/run_optimisation.py:26-28 | `prob += expr` sets the objective. `variables` records `x`, whose variables have lower bound 0 from line 26. The constraints are unchanged. |
| Formulation.Problem.PoseCapacityConstraints | src/run_optimisation.py:30-31 | The loop appends one constraint per supplier of `cap`, no supplier twice, and only such constraints. Earlier constraints keep their places, and the variables and objective are unchanged. |
| Formulation.Problem.PoseDemandConstraints | src/run_optimisation.py:33-34 | The loop appends one constraint per warehouse of `need`, no warehouse twice, and only such constraints. Earlier constraints keep their places, and the variables and objective are unchanged. |
| Extraction.ExtractAllocation | src/run_optimisation.py:39-43 | The loop over `x.items()` returns `Allocation` of the routes in dict order. |
| Extraction.AllocationMembers | src/run_optimisation.py:40-43 | A line is in `Allocation` exactly when its route is a variable whose quantity is present and positive. The line carries that quantity, the route's unit cost and their product. |
| Extraction.AllocationEmpty | src/run_optimisation.py:40-43 | The allocation is empty exactly when no route has a positive quantity. |
| Extraction.AllocationDistinct | src/run_optimisation.py:26-43 | No route appears twice in the allocation. |
| Extraction.SortLinesSorted | src/run_optimisation.py:45 | `SortLines` puts the allocation in (supplier, warehouse) order and returns a permutation of it. |
| Extraction.SortedDistinctIsStrict | src/run_optimisation.py:45 | A sorted list with no route twice is strictly increasing. |
| Extraction.PermutationKeepsDistinctKeys | src/run_optimisation.py:45 | Reordering the allocation keeps every route once. |
| Extraction.StrictlySortedUnique | src/run_optimisation.py:45 | Two strictly sorted lists with the same elements are equal, so every sorting algorithm yields the same plan. |
| Extraction.ShipTotalSort | src/run_optimisation.py:45 | Sorting does not change `ShipTotal`, the sum of the `ship_cost` column. |
| Extraction.AllocationTotal | src/run_optimisation.py:26-43 | With every quantity present and non-negative, the allocation's `ship_cost` sum equals the objective's sum along the routes. The dropped zero rows contribute nothing. |
| Extraction.ZeroDemandReportFails | src/run_optimisation.py:20-45 | For one route with zero demand and a solved quantity of 0, the answer is feasible and the allocation is empty. `SortAsWritten` (line 45 as written) then reports the missing `supplier` column, while `SortLines` gives an empty plan. |
| Lex.LessMeansLexBelow | src/run_optimisation.py:45 | `Less`, the recursive string comparison, agrees in both directions with the textbook definition of lexicographic order. |
| Lex.LessTransitive | src/run_optimisation.py:45 | String order is transitive. |
| Lex.LessTotal | src/run_optimisation.py:45 | Of two different strings, one is below the other. |
| Lex.PairLessTransitive | src/run_optimisation.py:45 | `PairLess`, the (supplier, warehouse) order, is transitive. |
| Lex.PairLessTotal | src/run_optimisation.py:45 | Two different pairs are ordered one way or the other. |
| Lex.PairNotAfterTransitive | src/run_optimisation.py:45 | "Not after" on pairs is transitive. |
| Optimisation.PlanIsSortedShipments | src/run_optimisation.py:39-45 | `Plan`, the sorted allocation, is strictly increasing by (supplier, warehouse). It holds exactly the lines of the routes shipped with a positive quantity, each with that quantity and its costs. |
| Optimisation.TotalIsPlanCost | src/run_optimisation.py:26-46 | `Total` is `None` exactly when some route of nonzero cost has no quantity, or when no route is priced and `__dummy` has no value; otherwise it is the objective. With non-negative quantities, and `__dummy` valued or some route priced, it equals the plan's `ship_cost` sum. |
| Optimisation.NothingShippedFails | src/run_optimisation.py:39-45 | Line 45 as written fails exactly when no route of `cost` is shipped. |
| Optimisation.Formulate | src/run_optimisation.py:24-34 | The posed problem has the variables of `x` and the objective over `cost`. It has one constraint per supplier and per warehouse, no supplier or warehouse twice and nothing else, so `|cap| + |need|` constraints. |
| Optimisation.RunOutcomeMeaning | src/run_optimisation.py:39-49 | `RunOutcome`, the end of `main()`, fails at line 45 with a missing `supplier` column exactly when nothing is shipped. Otherwise it writes `Plan`, a non-empty, strictly sorted plan of exactly the shipments. It goes on to write a total (`Written`) exactly when every route of nonzero cost has a quantity and, if no route is priced, `__dummy` has a value. That total is `Total`'s value and the objective. Otherwise formatting the total fails (`Unformatted`). When the lower bounds hold and `__dummy` is valued or some route priced, the run is `Written` and the total is the plan's cost. |
| Optimisation.RunOptimisation | src/run_optimisation.py:19-49 | `main()` poses one constraint per supplier and per warehouse, each once. The posed problem accepts the solver's answer exactly when that answer is feasible for the transportation problem. The run ends in `RunOutcome`. |
| Optimisation.ZeroDemandRunFails | src/run_optimisation.py:20-45 | For one route with zero demand and the all-zero answer, which is feasible, `main()` fails with a missing `supplier` column. |
| Optimisation.UnpricedRouteRun | src/run_optimisation.py:39-49 | An answer that ships 60 on `(S1, W1)` but has no quantity for the route `(S1, W2)` of cost 3 ends in `Unformatted`, whether or not `__dummy` has a value: the plan is written and the total cannot be formatted. |
| Optimisation.FreeRouteRun | src/run_optimisation.py:36-49 | A single shipped route of cost 0 ends in `Written` when the solver gave `__dummy` a value, and in `Unformatted` when it did not. |
| Optimisation.ZeroCostRouteScenario | src/run_optimisation.py:28-46 | For a single route of cost 0 with no solved quantity, the route leaves no term in the objective. The total is `Some(0.0)` when `__dummy` has a value and `None` when it has not. |
| Optimisation.ScenarioInstance | src/run_optimisation.py:22 | For two rows from one supplier to two warehouses, `cost` and its order are those two routes. |
| Optimisation.TwoWarehouseScenario | src/run_optimisation.py:20-46 | With demands 60 and 40 met from one supplier at costs 2 and 3, the plan is the two lines `(S1, W1, 60, 2, 120)` and `(S1, W2, 40, 3, 120)`, and the total is 240 whether or not `__dummy` has a value. |

## Left out

- Reading the CSV (line 19) is not modelled. The rows are a parameter. Column-name configuration (lines 10-16) and the output directory are not modelled either.
- Missing values are not modelled. pandas `groupby` drops NaN keys and `max` skips NaN values; the model's rows have no missing values.
- `groupby` yields its keys in sorted order, so the constraint loops run in that order. The model lets the loops take the keys in any order, which includes the sorted one. The posed set of constraints is the same, and so is the LP.
- Variable names (`x_{s}_{w}`) and PuLP's name mangling are not modelled. Two routes whose names collide after mangling are not detected.
- The solve and its status (lines 36-38) are not modelled. `prob.solve()` runs an external solver. Its answer is a parameter with no promise of feasibility or optimality, and `LpStatus` is not reported.
- PuLP's `solve` changes an objective that has no terms: it adds `__dummy` and then subtracts it again. `Problem.objective` does not record that zero-coefficient term. Its one lasting effect, on `value(prob.objective)`, is `SolvedValue`.
- Writing `shipment_plan.csv` and `optimisation_summary.txt`, the `{:,.2f}` formatting of a number, and the console messages (lines 47-51) are I/O and are left out. The outcomes record only what is written: `Written` a plan and a total, `Unformatted` a plan and an opened, empty summary file.
- The `try`/`except` wrapper (lines 53-58) is left out beyond the outcomes that end in it. `Failed` stands for the `KeyError` of line 45 and `Unformatted` for the `TypeError` of line 49. Each ends the run with exit code 1. The message and the exit code are not modelled.
- Floating point is left out. Costs and quantities are exact reals, so rounding in sums and in `qty*cost` does not appear.
- Extraction.SortLines: the model sorts by insertion. pandas sorts on two columns with a lexicographic sort, so the algorithm differs. Routes are distinct, so `StrictlySortedUnique` shows both give the same plan.
- The forecasting script and the rest of the repository are not part of this model.

## Findings

| source | as written | input that shows it | evidently intended | confidence | as-written member | corrected member |
|---|---|---|---|---|---|---|
| src/run_optimisation.py:45 | `pd.DataFrame(alloc)` of an empty list has no columns, so `sort_values(["supplier","warehouse"])` raises `KeyError`. The run then exits with code 1 and writes no plan. | One row `(S1, W1, cost 2, capacity 100, demand 0)` and a solved quantity of 0: feasible, nothing is shipped, and the allocation is empty. | An empty plan and a total of 0. | not executed (high: pandas raises `KeyError` for a sort key that is not a column) | Optimisation.ZeroDemandRunFails | Optimisation.PlanIsSortedShipments |
