# TDP controller and entropy test planner, modelled in Dafny

This project models the core of a Test–Diagnose–Plan (TDP) fault-localisation loop. The loop
runs over spectrum data: which program elements each test covers, and whether the test failed.
It repeats four steps:

- diagnose the observed failures into a ranked list of candidate diagnoses (sets of faulty
  components, each with a probability);
- stop if the statistics say the diagnosis is complete;
- otherwise plan the next test, the one with the largest expected information gain;
- run that test and fold its outcome into the state.

The model covers two classes.

`TDPAlgorithm` (modules `TdpSpec` and `Tdp`) is the controller. It owns:

- the element list;
- the observed tests and their boolean coverage matrix;
- the per-element spectrum counters (`ef`, `ep`, `nf`, `np`);
- the pool of tests still available for planning.

Its methods are imperative Dafny over those fields:

- the nested counting loops;
- the row copies that grow the matrix by one row per executed test;
- the filter that builds the pool and the `removeIf` that shrinks it;
- the bounded Diagnose → Plan → Test loop.

Each method except the constructor and `PlanNextTest` is proved against a function of `TdpSpec`;
the constructor only establishes `Valid` with empty state, and `PlanNextTest` only promises that the planned test is
in the pool. The class invariant `Valid` keeps three
things in step with the observed tests: the matrix, the counters, and the planner's copy of the
counters.

`EntropyTestPlanner` (modules `PlannerSpec` and `Planner`) is the planner. It computes:

- a component's goodness, `ep/(ef+ep)` clamped to `[0.01, 0.99]`;
- the clamped probability that a test passes;
- the Bayesian what-if update of the diagnosis probabilities, with pruning at 0.001,
  renormalisation and a uniform fallback;
- entropy over an abstract logarithm `ln`;
- the information gain floored at zero;
- a first-wins argmax over the available tests.

Java `double` is idealised as Dafny `real`. `Diagnosis` is a class with fixed `components` and an
overwritable `probability`. This is needed because the fallback of the update overwrites the
probabilities of the caller's own diagnosis objects, and the model follows that side effect
through `computeInformationGain` and `selectBestTest`:

- `CallerAfterUpdate`, `StateAfterGain` and `Evaluate` describe it;
- `NormalizedListNeverFallsBack` shows that it never fires on a normalised list of at most 20
  diagnoses.

In the fallback case `computeInformationGain` overwrites the caller's diagnoses, so the fail-case
update and the later candidates in `selectBestTest` read the overwritten list; the model follows
this (EntropyTestPlanner.java:163-164, 303-305). When the loop ends without a complete diagnosis,
its best-effort answer is the first diagnosis of the final diagnose step (TDPAlgorithm.java:322),
whatever its probability.

The collaborators whose code is not part of this model are function parameters of the loop:

- conflict extraction (`extract`);
- the hitting-set computation (`compute`);
- `DiagnosisStatistics.isComplete` (`complete`);
- `getMostLikelyDiagnosis` (`mostLikely`).

The person or runner who reports the test outcome is a nondeterministic choice.

## Model

| member | source | states |
|---|---|---|
| `Structures.Clamp` | EntropyTestPlanner.java:69 | `Math.max(lo, Math.min(hi, x))` lies in `[lo, hi]`, is `x` inside the range and the violated bound outside it |
| `PlannerSpec.StatsMapKeys` | EntropyTestPlanner.java:29-33 | the statistics map's key set is exactly the set of ids in the list |
| `PlannerSpec.StatsMapLastWins` | EntropyTestPlanner.java:31-33 | an entry whose id does not recur later in the list is the one the map holds for that id (a later duplicate overwrites an earlier one) |
| `Planner.EntropyTestPlanner.constructor` | EntropyTestPlanner.java:19-21 | a new planner starts with an empty statistics map |
| `Planner.EntropyTestPlanner.SetComponentStats` | EntropyTestPlanner.java:29-35 | after the call the map is the list put in order, with no entry of the previous map left, and its keys are exactly the ids of the list |
| `PlannerSpec.Goodness` | EntropyTestPlanner.java:49-72 | goodness is always in `[0.01, 0.99]`, and is 0.5 for a component with no statistics or never covered |
| `PlannerSpec.GoodnessIsPassRatio` | EntropyTestPlanner.java:57-69 | for a covered component goodness is the pass ratio `ep/(ef+ep)` when that is within `[0.01, 0.99]`, 0.01 below and 0.99 above; covered only by passing tests gives 0.99, only by failing tests 0.01 |
| `PlannerSpec.FoldPick` | EntropyTestPlanner.java:210-213 | for a commutative, associative operation any element of the set can be combined first, so the unspecified iteration order of the set cannot change the result |
| `PlannerSpec.ProductPick` | EntropyTestPlanner.java:267-269 | any component of the intersection can be factored out of the goodness product first |
| `PlannerSpec.ProductBounds` | EntropyTestPlanner.java:209-213 | a product of factors in `(0, 0.99]` lies in `(0, 1]`, and is at most 0.99 over a non-empty set |
| `PlannerSpec.GoodnessProductBounds` | EntropyTestPlanner.java:266-269 | the goodness product over any set of components lies in `(0, 1]`, and is at most 0.99 when the set is not empty |
| `Planner.ProductOver` | EntropyTestPlanner.java:266-269 | the multiplication loop, taking the components out of the set in any order, computes the product over the whole set |
| `Planner.EntropyTestPlanner.GoodnessProductOf` | EntropyTestPlanner.java:209-213 | the loop over the intersection computes the goodness product of exactly those components |
| `PlannerSpec.Likelihood` | EntropyTestPlanner.java:251-281 | the likelihood of an outcome always lies in `[0.05, 0.95]`; with an empty intersection it is 0.95 for pass and 0.05 for fail |
| `PlannerSpec.LikelihoodComplement` | EntropyTestPlanner.java:253-281 | the pass and fail likelihoods of one diagnosis add up to 1, clamping included |
| `Planner.EntropyTestPlanner.OutcomeLikelihood` | EntropyTestPlanner.java:248-281 | the intersection test, goodness product, complement for a failure and clamp compute `Likelihood` |
| `PlannerSpec.PassProbability` | EntropyTestPlanner.java:224-225 | the estimated pass probability always lies in `[0.05, 0.95]` |
| `PlannerSpec.WeightedPassBetween` | EntropyTestPlanner.java:193-222 | with non-negative weights, the weighted pass sum lies between 0.05 and 0.95 times the total weight |
| `PlannerSpec.PassProbabilityOfDistribution` | EntropyTestPlanner.java:221-225 | on a distribution the final clamp never changes the weighted sum |
| `Planner.EntropyTestPlanner.EstimateTestPassProbability` | EntropyTestPlanner.java:190-226 | the accumulator loop returns `PassProbability` of the diagnoses' current values: 0.95 for a diagnosis the trace misses, the clamped goodness product otherwise, weighted and clamped again |
| `PlannerSpec.PruneAppend` | EntropyTestPlanner.java:246-291 | pruning a concatenation prunes each part, so the filter keeps the input order |
| `PlannerSpec.PruneMembers` | EntropyTestPlanner.java:286-290 | an entry survives pruning iff its new weight exceeds 0.001; it keeps its components and carries that weight |
| `PlannerSpec.PruneAboveThreshold` | EntropyTestPlanner.java:287 | every survivor carries a weight above 0.001 |
| `PlannerSpec.PosteriorsAppend` | EntropyTestPlanner.java:246-284 | the posteriors of a concatenation are those of its parts |
| `PlannerSpec.ReweightedAppend` | EntropyTestPlanner.java:246-291 | reweighting a concatenation is the concatenation of the reweightings: survivors keep the input order |
| `PlannerSpec.ReweightedMembers` | EntropyTestPlanner.java:284-290 | exactly the diagnoses whose posterior exceeds 0.001 survive, with their components unchanged and their posterior as weight |
| `PlannerSpec.ReweightedAboveThreshold` | EntropyTestPlanner.java:287-290 | every survivor's weight is above the pruning threshold |
| `Planner.EntropyTestPlanner.ReweighOne` | EntropyTestPlanner.java:247-290 | for one diagnosis, a fresh object carrying its posterior when that exceeds 0.001, otherwise nothing |
| `Planner.EntropyTestPlanner.ReweighDiagnoses` | EntropyTestPlanner.java:244-291 | the pruning loop returns pairwise distinct fresh objects whose values are the survivors, in input order, with their unnormalised weights |
| `PlannerSpec.SumOfPositives` | EntropyTestPlanner.java:294-295 | a sum of positive probabilities is positive exactly when the list is non-empty, and bounds every entry |
| `PlannerSpec.SurvivorsTotalPositive` | EntropyTestPlanner.java:294-295 | the source's test `totalProb > 0` holds exactly when some diagnosis survived pruning |
| `PlannerSpec.UpdateBranches` | EntropyTestPlanner.java:293-307 | with a positive total the update renormalises the survivors and leaves the caller's diagnoses alone; otherwise nothing survived, and both the result and the caller's diagnoses are the uniform list; an empty input gives an empty result |
| `PlannerSpec.SumUniform` | EntropyTestPlanner.java:303-305 | the probabilities of the fallback over a non-empty list sum to 1 |
| `PlannerSpec.NormalizedIsDistribution` | EntropyTestPlanner.java:294-298 | dividing positive weights by their total gives probabilities in `(0, 1]` that sum to 1 |
| `PlannerSpec.UniformIsDistribution` | EntropyTestPlanner.java:303-306 | the fallback over a non-empty list is a distribution with every probability in `(0, 1]` |
| `PlannerSpec.UpdateIsDistribution` | EntropyTestPlanner.java:241-310 | on a non-empty input the update always returns a distribution summing to 1; when nothing survives it is the original diagnoses, in order, each with probability `1/|current|` |
| `PlannerSpec.SurvivorsNormalized` | EntropyTestPlanner.java:293-298 | when some diagnosis survives, the result is the survivors in input order with their components, each weight divided by the survivors' total, and the caller's list is untouched |
| `PlannerSpec.HeavyDiagnosisSurvives` | EntropyTestPlanner.java:284-290 | a diagnosis holding more than 0.02 of the mass always survives pruning, so the fallback cannot fire |
| `PlannerSpec.NormalizedListNeverFallsBack` | EntropyTestPlanner.java:299-307 | on a list of at most 20 diagnoses summing to 1 the fallback never fires and the caller's objects keep their probabilities |
| `PlannerSpec.UniformIdempotent` | EntropyTestPlanner.java:303-305 | applying the uniform fallback twice gives what applying it once gives |
| `Planner.Renormalize` | EntropyTestPlanner.java:296-298 | the loop divides each distinct diagnosis's probability by the total, in place |
| `Planner.FallBackToUniform` | EntropyTestPlanner.java:303-306 | the loop sets every caller's diagnosis to `1/|current|` and returns the caller's objects themselves, in order |
| `Planner.RenormalizeOrFallBack` | EntropyTestPlanner.java:293-307 | a positive total renormalises the survivors and leaves the caller's objects alone; otherwise the caller's objects are reset to uniform and returned |
| `Planner.EntropyTestPlanner.UpdateDiagnosesForTestOutcome` | EntropyTestPlanner.java:241-310 | the result's values are `UpdateOutcome` of the caller's prior values; the caller's objects end as `CallerAfterUpdate` says; survivors are fresh objects, and in the fallback case the caller's own list is returned |
| `PlannerSpec.EntropyAppend` | EntropyTestPlanner.java:138-142 | entropy adds up over concatenation, so each diagnosis contributes independently of its position |
| `PlannerSpec.EntropySkipsNonPositive` | EntropyTestPlanner.java:139-141 | a diagnosis with probability `<= 0` contributes nothing, wherever it stands |
| `PlannerSpec.EntropyNonNegative` | EntropyTestPlanner.java:135-145 | when `ln` is non-positive on `(0, 1]`, the entropy of probabilities at most 1 is non-negative |
| `Planner.EntropyTestPlanner.ComputeEntropy` | EntropyTestPlanner.java:135-145 | the accumulator loop returns `Entropy` of the diagnoses' values (0 for an empty list) |
| `PlannerSpec.InformationGain` | EntropyTestPlanner.java:170-174 | the gain is never negative, is at least the expected entropy reduction, and is either 0 or exactly that reduction |
| `PlannerSpec.GainFor` | EntropyTestPlanner.java:154-175 | the gain of one test, computed from the caller's diagnoses, is never negative |
| `Planner.EntropyTestPlanner.UpdateBothWays` | EntropyTestPlanner.java:163-164 | the two what-if lists are the pass update of the caller's values and the fail update of the values the pass update left; the caller's list ends as `StateAfterGain` |
| `Planner.EntropyTestPlanner.WhatIfEntropies` | EntropyTestPlanner.java:167-168 | the entropies of the two what-if lists, leaving the caller's diagnoses unchanged |
| `Planner.EntropyTestPlanner.ComputeInformationGain` | EntropyTestPlanner.java:154-175 | the returned gain is non-negative and equals `GainFor` of the caller's prior values; the caller's diagnoses end as `StateAfterGain` |
| `PlannerSpec.Evaluate` | EntropyTestPlanner.java:109-118 | the scan computes one gain per available test, each from the state the earlier evaluations left |
| `PlannerSpec.EvaluateFromFixedState` | EntropyTestPlanner.java:109-118 | when no evaluation changes the state, every gain is computed from the original diagnoses and the state ends unchanged |
| `PlannerSpec.NormalizedListKeptByGain` | EntropyTestPlanner.java:163-164 | on a normalised list of at most 20 diagnoses computeInformationGain leaves the caller's list as it found it |
| `PlannerSpec.EvaluateOnNormalizedList` | EntropyTestPlanner.java:109-118 | on a normalised list of at most 20 diagnoses every test's gain is its gain against the original diagnoses, which the scan leaves unchanged |
| `PlannerSpec.FirstArgmax` | EntropyTestPlanner.java:105-118 | the selected index has a maximal gain, and every earlier index has a strictly smaller gain: ties go to the earliest test |
| `Planner.EntropyTestPlanner.SelectByGain` | EntropyTestPlanner.java:102-125 | the scan over a non-empty pool returns the test at the first argmax of the gains, and leaves the caller's diagnoses as the evaluations left them |
| `Planner.EntropyTestPlanner.SelectBestTest` | EntropyTestPlanner.java:80-126 | no test when the pool is empty or there are at most one diagnosis; some pool member without statistics; otherwise the first test of maximal gain |
| `TdpSpec.Tally` | TDPAlgorithm.java:427-430 | counting one more test raises exactly the counter of its (failed, covers) class by one and keeps the id |
| `TdpSpec.StatsOf` | TDPAlgorithm.java:421-431 | the counters of one element carry its id and add up to the number of observed tests |
| `TdpSpec.StatsCountMatching` | TDPAlgorithm.java:421-431 | `ef` counts the failed covering tests, `ep` the passed covering ones, `nf` the failed non-covering ones, `np` the rest, a column past the end of a row counting as not covered |
| `TdpSpec.StatsOfSameColumn` | TDPAlgorithm.java:424 | the counters of column j depend on the rows only through that column of the observed tests' rows |
| `TdpSpec.ElementStatistics` | TDPAlgorithm.java:417-443 | one entry per element, in element order, with `id == elements[j]` and counters summing to the number of observed tests |
| `Tdp.TDPAlgorithm.CountColumn` | TDPAlgorithm.java:421-431 | the inner counting loop returns the counters of element j over the observed tests |
| `Tdp.TDPAlgorithm.BuildElementStatistics` | TDPAlgorithm.java:417-443 | the nested loops return `ElementStatistics` of the current state |
| `TdpSpec.Resized` | TDPAlgorithm.java:453-454 | a row copied into a fresh all-false row of m columns keeps its first `min(len, m)` entries and is false beyond |
| `TdpSpec.TraceRow` | TDPAlgorithm.java:459-462 | the new test's row marks column j exactly when element j is in the actual trace |
| `TdpSpec.Expanded` | TDPAlgorithm.java:448-465 | the expanded matrix has one row per observed test (the new one included), every row as wide as the element list |
| `TdpSpec.CoversResized` | TDPAlgorithm.java:453-454 | resizing keeps every column below the new width |
| `Tdp.CopyRow` | TDPAlgorithm.java:453-454 | `System.arraycopy` of the first `len` entries into a fresh all-false array of m entries |
| `Tdp.TDPAlgorithm.ExpandCoverageMatrix` | TDPAlgorithm.java:448-465 | the copy loops return `Expanded`: the earlier rows resized, then the row of the new test's actual trace |
| `TdpSpec.StatsAfterNewTest` | TDPAlgorithm.java:395-406 | recomputing the counters after the new test is appended and the matrix expanded equals tallying the new test onto the old counters |
| `TdpSpec.FirstNamed` | TDPAlgorithm.java:155-160 | the index of the first full-suite test with the name, or none when no test has it |
| `TdpSpec.InitialRows` | TDPAlgorithm.java:150-162 | one initial row per observed test, each as wide as the element list |
| `Tdp.TDPAlgorithm.CopyObservedRows` | TDPAlgorithm.java:150-162 | each observed test's row is the first m columns of the first full-suite test with its name, or all false when none matches |
| `Tdp.TDPAlgorithm.TraceOf` | TDPAlgorithm.java:251-256 | the elements whose column is set, scanning no further than the element list or the row |
| `TdpSpec.AvailableMembers` | TDPAlgorithm.java:242-261 | a test is in the pool iff it is the entry of some full-suite test that is not observed and has a non-empty trace |
| `TdpSpec.AvailableNotObserved` | TDPAlgorithm.java:246-259 | no pool entry carries an observed name, and every entry's trace is non-empty |
| `TdpSpec.AvailableOrder` | TDPAlgorithm.java:242-261 | the pool follows suite order: the entries of the first k tests come before those of the rest |
| `Tdp.TDPAlgorithm.BuildAvailableTestsFromAllTests` | TDPAlgorithm.java:232-264 | the filter loop returns the pool built from every full-suite test, against the observed names |
| `Tdp.TDPAlgorithm.Initialize` | TDPAlgorithm.java:136-169 | after initialisation the state is valid, the observed rows are copied, the counters built and handed to the planner, and the pool built |
| `TdpSpec.RemoveNamedMembers` | TDPAlgorithm.java:408 | after `removeIf`, a test remains iff it was there and has another name |
| `TdpSpec.ExecutedFromPoolStep` | TDPAlgorithm.java:303-314 | executing a test of the starting pool and then removing its name from the pool keeps every newly observed test traceable to the starting pool and absent from the current pool |
| `TdpSpec.RemoveNamedOrder` | TDPAlgorithm.java:408 | `removeIf` on a concatenation removes from each part, so the remaining tests keep their relative order |
| `Tdp.TDPAlgorithm.constructor` | TDPAlgorithm.java:97-100 | a new controller has a planner with an empty statistics map and empty state fields, which satisfy the class invariant |
| `Tdp.TDPAlgorithm.UpdateStateWithNewTest` | TDPAlgorithm.java:391-412 | exactly one observed test is appended, named after the result and failed iff the result did not pass; the matrix is expanded by its row; every element's counters are the old ones with the new test tallied; the planner holds the new counters; the pool loses every test of that name |
| `TdpSpec.CurrentDiagnoses` | TDPAlgorithm.java:335-347 | no diagnoses when conflict extraction finds no conflict |
| `Tdp.NewDiagnoses` | TDPAlgorithm.java:346 | fresh diagnosis objects carrying the given components and probabilities, in order |
| `Tdp.TDPAlgorithm.GenerateCurrentDiagnoses` | TDPAlgorithm.java:335-347 | the diagnose step returns fresh objects whose values are `CurrentDiagnoses` of the current state |
| `Tdp.TDPAlgorithm.PlanNextTest` | TDPAlgorithm.java:303 | the planned test, if any, is a member of the pool |
| `Tdp.TDPAlgorithm.ExecuteTdpLoop` | TDPAlgorithm.java:269-330 | at most 10 tests are executed; the state stays valid; the observed tests only grow; the pool only shrinks; every newly observed test carries the name of a test of the starting pool, and no test of that name is left in the pool. The result is null when the last diagnose step found nothing, the most likely diagnosis when the statistics called it complete inside the loop, and otherwise the first diagnosis of the final diagnose step |

## Left out

- File reading and parsing: the existence checks, `readNonEmptyLines`, `parseTests`, `parseMatrix` and header stripping of `initializeFromGZoltarData`. The element names, the full suite and its coverage rows are parameters of `Initialize`.
- `loadAllTestNames` and `buildAvailableTestsFromGZoltar` read hard-coded files, and the latter is never called. They are not modelled.
- `selectInitialObservations` prompts on standard input. Its result is the `observed` parameter of `Initialize`.
- `executeTest` and `simulateTestExecution` ask a person for the outcome. The outcome is a nondeterministic boolean, and the actual trace is the estimated one, as the source does.
- Console output is not modelled: `displayDiagnoses`, `displayFinalResult`, `formatComponents`, `printGoodnessDebugInfo` and every `printf`.
- `getDiagnosisStatistics` is not modelled. `DiagnosisStatistics`, `FilteredHittingSetComputer` (`extractConflicts`, `computeDiagnoses`), `EmbeddedSFL` and `TDPDataStructures` are not part of this model. Completion, the most likely diagnosis, conflict extraction and the hitting-set computation are function parameters of the loop. Conflicts are sets of element names. The diagnose step allocates fresh diagnosis objects.
- `Structures.TestResult.IsFailed`: `isFailed` is taken to be the negation of `isPassed`.
- TDPDemo.java is not part of this model. It is reflection, class loading and file plumbing.
- `Math.log` and the numeric value of entropy are not modelled. Entropy takes the logarithm as a parameter `ln`, and the only logarithm fact used is an explicit hypothesis of `EntropyNonNegative`.
- Java `double` rounding is not modelled. Arithmetic is over exact reals.
- Java `int` overflow of the counters is not modelled. Counters are unbounded naturals.
- HashSet iteration order is not modelled. The goodness product multiplies the components in an arbitrary order, and `FoldPick` shows the order cannot matter. The set of observed names is a set.
- The coverage matrix is a sequence of rows that the controller reassigns wholesale. Each row is still built through a fresh array (`CopyRow` and the last-row loop). The source never aliases rows.
- The source throws when a full-suite row is shorter than the element count (TDPAlgorithm.java:158), or when the coverage matrix has fewer rows than the suite has tests (TDPAlgorithm.java:158 and 253). The model does not throw. The requirement `CopyableRows` of `Initialize` excludes both cases: it asks for `|allTests| <= |allCoverage|` and for a long enough row for each copied test.
- `Tdp.TDPAlgorithm.constructor`: the source constructor leaves the element list, observed tests, coverage matrix, counters and pool null until `initializeFromGZoltarData` runs. A call to `updateStateWithNewTest` or `executeTDPLoop` before that throws a NullPointerException. The model starts these fields empty instead, so both methods run on an uninitialised controller.
- `Planner.EntropyTestPlanner.SelectBestTest`: the random pick made when no statistics are loaded is an arbitrary member of the pool, not a uniformly random one.
- `Tdp.TDPAlgorithm.PlanNextTest`: it states only that the planned test is in the pool. It hides the planner's full choice contract from the loop; that contract is stated by `SelectBestTest`.
- `Tdp.TDPAlgorithm.ExecuteTdpLoop`: it does not state which test each round executes; it states only that each executed test has the name of a test of the starting pool and that no test of that name remains in the pool.
- Some parts of the source methods are their own methods in the model. Their statements, and the order of those statements, are those of the source:
  - the inner counting loop of `buildElementStatistics` (`CountColumn`);
  - the row copy of `System.arraycopy` (`CopyRow`);
  - the trace extraction of `buildAvailableTestsFromAllTests` (`TraceOf`);
  - the likelihood and goodness product computed per diagnosis (`OutcomeLikelihood`, `GoodnessProductOf`);
  - the pruning loop of `updateDiagnosesForTestOutcome` and its body (`ReweighDiagnoses`, `ReweighOne`);
  - the renormalisation and fallback of `updateDiagnosesForTestOutcome` (`RenormalizeOrFallBack`, `Renormalize`, `FallBackToUniform`);
  - the two what-if updates and their entropies in `computeInformationGain` (`UpdateBothWays`, `WhatIfEntropies`);
  - the scan over the tests in `selectBestTest` (`SelectByGain`).

