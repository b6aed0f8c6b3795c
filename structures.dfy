/**
 * The records shared by the TDP controller and the entropy planner: test cases and
 * per-element spectrum counters (the SFL side), candidate tests and test results,
 * and the Diagnosis object whose probability the planner overwrites in place.
 */
module Structures {

  datatype Option<T> = None | Some(value: T)

  /** An observed test: its name and whether it failed. */
  datatype TestCase = TestCase(name: string, failed: bool)

  /**
   * Spectrum counters of one program element over the observed tests:
   * ef = failed and covering, ep = passed and covering,
   * nf = failed and not covering, np = passed and not covering.
   */
  datatype ElemStats = ElemStats(id: string, ef: nat, ep: nat, nf: nat, np: nat)

  /** A test that has not been run yet, with the elements it is expected to cover. */
  datatype AvailableTest = AvailableTest(name: string, trace: set<string>)

  /** The outcome of running a test, with the elements it actually covered. */
  datatype TestResult = TestResult(name: string, passed: bool, actualTrace: set<string>)
  {
    predicate IsFailed() { !passed }
  }

  /** A value view of one diagnosis: its components and its probability at one moment. */
  datatype Weighted = Weighted(components: set<string>, probability: real)

  /** A candidate explanation: a fixed set of components and a probability that can be overwritten. */
  class Diagnosis {
    const components: set<string>
    var probability: real

    constructor (components: set<string>, probability: real)
      ensures this.components == components && this.probability == probability
    {
      this.components := components;
      this.probability := probability;
    }
  }

  /** The components and current probabilities of a list of diagnosis objects, in list order. */
  function Snapshot(ds: seq<Diagnosis>): (ws: seq<Weighted>)
    reads ds
    ensures |ws| == |ds|
    ensures forall k :: 0 <= k < |ds| ==> ws[k] == Weighted(ds[k].components, ds[k].probability)
  {
    seq(|ds|, k requires 0 <= k < |ds| reads ds => Weighted(ds[k].components, ds[k].probability))
  }

  lemma SnapshotAppend(ds: seq<Diagnosis>, d: Diagnosis)
    ensures Snapshot(ds + [d]) == Snapshot(ds) + [Weighted(d.components, d.probability)]
  {
  }

  lemma SnapshotConcat(ds: seq<Diagnosis>, es: seq<Diagnosis>)
    ensures Snapshot(ds + es) == Snapshot(ds) + Snapshot(es)
  {
  }

  /** Sum of the probabilities, accumulated front to back as the source's loops do. */
  function Sum(ws: seq<Weighted>): real
  {
    if ws == [] then 0.0 else Sum(ws[..|ws| - 1]) + ws[|ws| - 1].probability
  }

  /** Java's Math.max(lo, Math.min(hi, x)). */
  function Clamp(x: real, lo: real, hi: real): (r: real)
    requires lo <= hi
    ensures lo <= r <= hi
    ensures lo <= x <= hi ==> r == x
    ensures x < lo ==> r == lo
    ensures hi < x ==> r == hi
  {
    if x < lo then lo else if hi < x then hi else x
  }
}
