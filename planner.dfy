/**
 * The entropy test planner as an object: it owns the component-statistics map, and its
 * methods are the source's loops, each proved against the functions of PlannerSpec.
 * The what-if update allocates fresh diagnoses for the survivors, and in its fallback
 * case overwrites the probabilities of the caller's diagnosis objects.
 */
module Planner {
  import opened Structures
  import opened PlannerSpec

  /** Multiplying the product over the components taken so far by one more factor. */
  lemma TakeFactor(f: string -> real, taken: set<string>, c: string, product: real)
    requires c !in taken && product == Product(f, taken)
    ensures product * f(c) == Product(f, taken + {c})
  {
    ProductPick(f, taken + {c}, c);
    assert (taken + {c}) - {c} == taken;
    assert Times()(f(c), product) == f(c) * product;
  }

  /** The multiplication loop: factors taken out of the set one at a time, in any order. */
  method ProductOver(f: string -> real, components: set<string>) returns (product: real)
    ensures product == Product(f, components)
  {
    product := 1.0;
    var rest := components;
    ghost var taken: set<string> := {};
    while rest != {}
      invariant taken + rest == components && taken !! rest
      invariant product == Product(f, taken)
      decreases |rest|
    {
      var c :| c in rest;
      TakeFactor(f, taken, c, product);
      product := product * f(c);
      taken, rest := taken + {c}, rest - {c};
    }
    assert taken == components;
  }

  class EntropyTestPlanner {
    var componentStats: map<string, ElemStats>

    constructor ()
      ensures componentStats == map[]
    {
      componentStats := map[];
    }

    /** Clears the map, then puts every entry in list order. */
    method SetComponentStats(stats: seq<ElemStats>)
      modifies this
      ensures componentStats == StatsMap(stats)
      ensures componentStats.Keys == set i | 0 <= i < |stats| :: stats[i].id
    {
      componentStats := map[];
      for i := 0 to |stats|
        invariant componentStats == StatsMap(stats[..i])
      {
        assert stats[..i + 1][..i] == stats[..i];
        componentStats := componentStats[stats[i].id := stats[i]];
      }
      assert stats[..|stats|] == stats;
      StatsMapKeys(stats);
    }

    /** The goodness product over a set of components, multiplied in whatever order the set yields them. */
    method GoodnessProductOf(components: set<string>) returns (product: real)
      ensures product == Product(GoodnessOf(componentStats), components)
    {
      product := ProductOver(GoodnessOf(componentStats), components);
    }

    /**
     * The likelihood of the outcome under one diagnosis: 0.95 or 0.05 when the test does not
     * touch the diagnosis, otherwise the clamped goodness product (pass) or its complement (fail).
     */
    method OutcomeLikelihood(trace: set<string>, components: set<string>, testPassed: bool) returns (likelihood: real)
      ensures likelihood == Likelihood(componentStats, trace, components, testPassed)
    {
      var intersection := trace * components;
      if intersection == {} {
        likelihood := if testPassed then 0.95 else 0.05;
      } else {
        var goodnessProduct := GoodnessProductOf(intersection);
        likelihood := if testPassed then goodnessProduct else 1.0 - goodnessProduct;
        likelihood := Clamp(likelihood, 0.05, 0.95);
      }
    }

    /** estimateTestPassProbability: the probability-weighted pass likelihood, clamped. */
    method EstimateTestPassProbability(test: AvailableTest, diagnoses: seq<Diagnosis>) returns (pass: real)
      ensures pass == PassProbability(componentStats, test.trace, Snapshot(diagnoses))
    {
      ghost var ws := Snapshot(diagnoses);
      var weightedPassProb := 0.0;
      for i := 0 to |diagnoses|
        invariant weightedPassProb == WeightedPass(componentStats, test.trace, ws[..i])
      {
        var d := diagnoses[i];
        var passGivenDiagnosis := OutcomeLikelihood(test.trace, d.components, true);
        assert ws[..i + 1][..i] == ws[..i];
        weightedPassProb := weightedPassProb + d.probability * passGivenDiagnosis;
      }
      assert ws[..|diagnoses|] == ws;
      pass := Clamp(weightedPassProb, 0.05, 0.95);
    }

    /** The pruning loop: a fresh diagnosis, carrying its unnormalised weight, for every survivor. */
    method ReweighDiagnoses(current: seq<Diagnosis>, test: AvailableTest, testPassed: bool)
      returns (updated: seq<Diagnosis>)
      ensures Snapshot(updated) == Reweighted(componentStats, test.trace, testPassed, Snapshot(current))
      ensures forall k :: 0 <= k < |updated| ==> fresh(updated[k])
      ensures forall a, b :: 0 <= a < b < |updated| ==> updated[a] != updated[b]
    {
      ghost var ws := Snapshot(current);
      ghost var qs := Posteriors(componentStats, test.trace, testPassed, ws);
      updated := [];
      for i := 0 to |current|
        invariant Snapshot(updated) == Prune(ws[..i], qs[..i])
        invariant forall k :: 0 <= k < |updated| ==> fresh(updated[k])
        invariant forall a, b :: 0 <= a < b < |updated| ==> updated[a] != updated[b]
      {
        var kept := ReweighOne(current[i], test, testPassed, ws, qs, i);
        PruneStep(ws, qs, i);
        SnapshotConcat(updated, kept);
        updated := updated + kept;
      }
      assert ws[..|current|] == ws && qs[..|current|] == qs;
    }

    /** The body of the reweighting loop for the i-th diagnosis: a fresh copy carrying its posterior, or nothing when pruned. */
    method ReweighOne(d: Diagnosis, test: AvailableTest, testPassed: bool, ghost ws: seq<Weighted>, ghost qs: seq<real>, ghost i: nat)
      returns (kept: seq<Diagnosis>)
      requires qs == Posteriors(componentStats, test.trace, testPassed, ws) && i < |ws|
      requires ws[i] == Weighted(d.components, d.probability)
      ensures Snapshot(kept) == if qs[i] > PRUNE then [Weighted(ws[i].components, qs[i])] else []
      ensures |kept| <= 1 && forall k :: 0 <= k < |kept| ==> fresh(kept[k])
    {
      var likelihoodGivenDiagnosis := OutcomeLikelihood(test.trace, d.components, testPassed);
      var newProbability := d.probability * likelihoodGivenDiagnosis;
      ReweightedNext(componentStats, test.trace, testPassed, ws, qs, i, likelihoodGivenDiagnosis);
      kept := [];
      if newProbability > PRUNE {
        var updatedDiagnosis := new Diagnosis(d.components, newProbability);
        kept := [updatedDiagnosis];
      }
    }

    /**
     * updateDiagnosesForTestOutcome. Survivors of pruning become fresh diagnoses whose
     * probabilities are renormalised in place; if none survives, every caller's diagnosis
     * is overwritten with 1/|current| and the caller's own list is returned.
     */
    method UpdateDiagnosesForTestOutcome(current: seq<Diagnosis>, test: AvailableTest, testPassed: bool)
      returns (updated: seq<Diagnosis>)
      modifies current
      ensures Snapshot(updated) == UpdateOutcome(componentStats, test.trace, testPassed, old(Snapshot(current)))
      ensures Snapshot(current) == CallerAfterUpdate(componentStats, test.trace, testPassed, old(Snapshot(current)))
      ensures Reweighted(componentStats, test.trace, testPassed, old(Snapshot(current))) != [] ==>
        forall k :: 0 <= k < |updated| ==> fresh(updated[k])
      ensures Reweighted(componentStats, test.trace, testPassed, old(Snapshot(current))) == [] ==>
        updated == current
    {
      ghost var ws := Snapshot(current);
      updated := ReweighDiagnoses(current, test, testPassed);
      UpdateBranches(componentStats, test.trace, testPassed, ws);
      SurvivorsTotalPositive(componentStats, test.trace, testPassed, ws);
      ghost var vs := Reweighted(componentStats, test.trace, testPassed, ws);
      updated := RenormalizeOrFallBack(current, updated, ws, vs);
    }

    /** computeEntropy: minus the sum of p * ln p over the diagnoses with positive probability. */
    method ComputeEntropy(diagnoses: seq<Diagnosis>, ln: real -> real) returns (entropy: real)
      ensures entropy == Entropy(Snapshot(diagnoses), ln)
    {
      ghost var ws := Snapshot(diagnoses);
      entropy := 0.0;
      for i := 0 to |diagnoses|
        invariant entropy == Entropy(ws[..i], ln)
      {
        var d := diagnoses[i];
        assert ws[..i + 1][..i] == ws[..i];
        if d.probability > 0.0 {
          entropy := entropy - d.probability * ln(d.probability);
        }
      }
      assert ws[..|diagnoses|] == ws;
    }

    /**
     * computeInformationGain: both what-if updates, their entropies weighted by the pass
     * probability, and the reduction floored at zero. The fail-case update sees the caller's
     * diagnoses as the pass-case update left them.
     */
    method ComputeInformationGain(test: AvailableTest, current: seq<Diagnosis>, currentEntropy: real, ln: real -> real)
      returns (infoGain: real)
      modifies current
      ensures infoGain >= 0.0
      ensures infoGain == GainFor(componentStats, currentEntropy, ln, old(Snapshot(current)), test)
      ensures Snapshot(current) == StateAfterGain(componentStats, old(Snapshot(current)), test)
    {
      ghost var ws := Snapshot(current);
      var pPass := EstimateTestPassProbability(test, current);
      var pFail := 1.0 - pPass;
      var diagnosesIfPass, diagnosesIfFail := UpdateBothWays(current, test, ws);
      ghost var passValues, failValues, after := Snapshot(diagnosesIfPass), Snapshot(diagnosesIfFail), Snapshot(current);
      var entropyIfPass, entropyIfFail := WhatIfEntropies(current, diagnosesIfPass, diagnosesIfFail, ln, after, passValues, failValues);
      GainForIs(componentStats, currentEntropy, ln, ws, test, pPass, entropyIfPass, entropyIfFail);
      infoGain := InformationGain(currentEntropy, pPass, entropyIfPass, entropyIfFail);
    }

    /** The two what-if updates of computeInformationGain, the fail case seeing the list the pass case left. */
    method UpdateBothWays(current: seq<Diagnosis>, test: AvailableTest, ghost ws: seq<Weighted>)
      returns (diagnosesIfPass: seq<Diagnosis>, diagnosesIfFail: seq<Diagnosis>)
      requires Snapshot(current) == ws
      modifies current
      ensures Snapshot(diagnosesIfPass) == UpdateOutcome(componentStats, test.trace, true, ws)
      ensures Snapshot(diagnosesIfFail) == UpdateOutcome(componentStats, test.trace, false, CallerAfterUpdate(componentStats, test.trace, true, ws))
      ensures Snapshot(current) == StateAfterGain(componentStats, ws, test)
    {
      diagnosesIfPass := UpdateDiagnosesForTestOutcome(current, test, true);
      ghost var afterPass := Snapshot(current);
      ghost var passValues := Snapshot(diagnosesIfPass);
      diagnosesIfFail := UpdateDiagnosesForTestOutcome(current, test, false);
      if Reweighted(componentStats, test.trace, true, ws) != [] {
        assert forall k :: 0 <= k < |diagnosesIfPass| ==> diagnosesIfPass[k] !in current;
        assert Snapshot(diagnosesIfPass) == passValues;
      } else {
        UniformIdempotent(ws);
        assert Snapshot(diagnosesIfPass) == Uniform(ws) == passValues;
      }
    }

    /** The entropies of the two what-if lists; measuring them changes nothing. */
    method WhatIfEntropies(current: seq<Diagnosis>, diagnosesIfPass: seq<Diagnosis>, diagnosesIfFail: seq<Diagnosis>, ln: real -> real,
                           ghost after: seq<Weighted>, ghost passValues: seq<Weighted>, ghost failValues: seq<Weighted>)
      returns (entropyIfPass: real, entropyIfFail: real)
      requires Snapshot(current) == after && Snapshot(diagnosesIfPass) == passValues && Snapshot(diagnosesIfFail) == failValues
      ensures entropyIfPass == Entropy(passValues, ln) && entropyIfFail == Entropy(failValues, ln)
      ensures Snapshot(current) == after
    {
      entropyIfPass := ComputeEntropy(diagnosesIfPass, ln);
      entropyIfFail := ComputeEntropy(diagnosesIfFail, ln);
    }

    /**
     * selectBestTest. No test when none is available or there are fewer than two diagnoses;
     * an arbitrary available test when no statistics are loaded; otherwise the first test of
     * maximal gain, scanning with a strict `>` from -1.
     */
    method SelectBestTest(availableTests: seq<AvailableTest>, current: seq<Diagnosis>, ln: real -> real)
      returns (best: Option<AvailableTest>)
      modifies current
      ensures |availableTests| == 0 || |current| <= 1 ==>
        best == None && Snapshot(current) == old(Snapshot(current))
      ensures |availableTests| > 0 && |current| > 1 && componentStats == map[] ==>
        best.Some? && best.value in availableTests && Snapshot(current) == old(Snapshot(current))
      ensures |availableTests| > 0 && |current| > 1 && componentStats != map[] ==>
        var e := Evaluate(GainOf(componentStats, Entropy(old(Snapshot(current)), ln), ln), StepOf(componentStats),
                          old(Snapshot(current)), availableTests);
        best == Some(availableTests[FirstArgmax(e.gains)]) && Snapshot(current) == e.state
    {
      if |availableTests| == 0 {
        return None;
      }
      if |current| == 0 || |current| == 1 {
        return None;
      }
      if componentStats == map[] {
        var pick :| 0 <= pick < |availableTests|;
        return Some(availableTests[pick]);
      }
      best := SelectByGain(availableTests, current, ln, Snapshot(current));
    }

    /** The scan of selectBestTest: every test's gain, in order, keeping the first test of maximal gain. */
    method SelectByGain(availableTests: seq<AvailableTest>, current: seq<Diagnosis>, ln: real -> real, ghost ws: seq<Weighted>)
      returns (best: Option<AvailableTest>)
      requires availableTests != [] && Snapshot(current) == ws
      modifies current
      ensures var e := Evaluate(GainOf(componentStats, Entropy(ws, ln), ln), StepOf(componentStats), ws, availableTests);
        best == Some(availableTests[FirstArgmax(e.gains)]) && Snapshot(current) == e.state
    {
      var currentEntropy := ComputeEntropy(current, ln);
      var bestTest: Option<AvailableTest> := None;
      var maxInfoGain := -1.0;
      ghost var bestIndex := 0;
      ghost var gain, step := GainOf(componentStats, currentEntropy, ln), StepOf(componentStats);
      ghost var e := Evaluation([], ws);
      for i := 0 to |availableTests|
        invariant e == Evaluate(gain, step, ws, availableTests[..i])
        invariant Snapshot(current) == e.state
        invariant i == 0 ==> bestTest == None && maxInfoGain == -1.0
        invariant i > 0 ==>
          bestIndex == FirstArgmax(e.gains) && bestTest == Some(availableTests[bestIndex]) && maxInfoGain == e.gains[bestIndex]
      {
        EvaluateNext(gain, step, ws, availableTests, i);
        var infoGain := ComputeInformationGain(availableTests[i], current, currentEntropy, ln);
        assert infoGain == gain(e.state, availableTests[i]) && Snapshot(current) == step(e.state, availableTests[i]);
        if i > 0 {
          FirstArgmaxNext(e.gains, infoGain);
        }
        if infoGain > maxInfoGain {
          maxInfoGain := infoGain;
          bestTest := Some(availableTests[i]);
          bestIndex := i;
        }
        e := Evaluation(e.gains + [infoGain], Snapshot(current));
      }
      assert availableTests[..|availableTests|] == availableTests;
      best := bestTest;
    }
  }

  /**
   * The end of the update: survivors renormalised by their total when it is positive,
   * otherwise the caller's diagnoses reset to 1/|current| and returned themselves.
   */
  method RenormalizeOrFallBack(current: seq<Diagnosis>, survivors: seq<Diagnosis>,
                                ghost ws: seq<Weighted>, ghost vs: seq<Weighted>)
    returns (updated: seq<Diagnosis>)
    requires Snapshot(current) == ws && Snapshot(survivors) == vs
    requires forall a, b :: 0 <= a < b < |survivors| ==> survivors[a] != survivors[b]
    requires forall j, k :: 0 <= j < |current| && 0 <= k < |survivors| ==> current[j] != survivors[k]
    requires Sum(vs) > 0.0 <==> vs != []
    modifies current, survivors
    ensures Sum(vs) > 0.0 ==> updated == survivors && Snapshot(updated) == Normalized(vs, Sum(vs)) && Snapshot(current) == ws
    ensures !(Sum(vs) > 0.0) ==> updated == current && Snapshot(current) == Uniform(ws)
  {
    var totalProb := Sum(Snapshot(survivors));
    if totalProb > 0.0 {
      Renormalize(survivors, totalProb);
      assert forall j :: 0 <= j < |current| ==> current[j].probability == ws[j].probability;
      updated := survivors;
    } else {
      updated := FallBackToUniform(current);
    }
  }

  /** The renormalisation loop: every diagnosis's probability divided by the total, in place. */
  method Renormalize(ds: seq<Diagnosis>, total: real)
    requires total != 0.0
    requires forall a, b :: 0 <= a < b < |ds| ==> ds[a] != ds[b]
    modifies ds
    ensures Snapshot(ds) == Normalized(old(Snapshot(ds)), total)
  {
    ghost var ws := Snapshot(ds);
    for i := 0 to |ds|
      invariant forall k :: 0 <= k < i ==> ds[k].probability == ws[k].probability / total
      invariant forall k :: i <= k < |ds| ==> ds[k].probability == ws[k].probability
    {
      ds[i].probability := ds[i].probability / total;
    }
  }

  /** The fallback loop: every caller's diagnosis gets probability 1/|current| and is returned, in order. */
  method FallBackToUniform(current: seq<Diagnosis>) returns (updated: seq<Diagnosis>)
    modifies current
    ensures updated == current
    ensures Snapshot(current) == Uniform(old(Snapshot(current)))
  {
    updated := [];
    for i := 0 to |current|
      invariant updated == current[..i]
      invariant forall k :: 0 <= k < i ==> current[k].probability == 1.0 / |current| as real
    {
      current[i].probability := 1.0 / |current| as real;
      updated := updated + [current[i]];
    }
  }
}
