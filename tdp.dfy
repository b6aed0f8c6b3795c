/**
 * The TDP controller as an object. It owns the elements, the observed tests, their coverage
 * matrix, the element counters and the pool of tests still available, and it runs the
 * bounded Diagnose-Plan-Test loop. Its methods are proved against the functions of TdpSpec,
 * except the constructor (which only establishes the class invariant on an empty state),
 * PlanNextTest (which only promises that the planned test is in the pool), and the helpers
 * CopyRow and NewDiagnoses (which are stated against their own arguments). The class
 * invariant keeps the counters, and the planner's copy of them, in step with the observed tests.
 */
module Tdp {
  import opened Structures
  import opened PlannerSpec
  import opened TdpSpec
  import opened Planner

  /** System.arraycopy of the first len entries of src into a fresh all-false row of m columns. */
  method CopyRow(src: seq<bool>, len: nat, m: nat) returns (row: seq<bool>)
    requires len <= |src| && len <= m
    ensures |row| == m
    ensures forall k :: 0 <= k < m ==> row[k] == (k < len && src[k])
  {
    var a := new bool[m](_ => false);
    for k := 0 to len
      invariant forall q :: 0 <= q < k ==> a[q] == src[q]
      invariant forall q :: k <= q < m ==> !a[q]
    {
      a[k] := src[k];
    }
    row := a[..];
  }

  /** Fresh diagnosis objects carrying the given values, as the hitting-set computation returns them. */
  method NewDiagnoses(ws: seq<Weighted>) returns (ds: seq<Diagnosis>)
    ensures Snapshot(ds) == ws
    ensures forall k :: 0 <= k < |ds| ==> fresh(ds[k])
  {
    ds := [];
    for i := 0 to |ws|
      invariant Snapshot(ds) == ws[..i]
      invariant forall k :: 0 <= k < |ds| ==> fresh(ds[k])
    {
      var d := new Diagnosis(ws[i].components, ws[i].probability);
      SnapshotAppend(ds, d);
      ds := ds + [d];
    }
    assert ws[..|ws|] == ws;
  }

  class TDPAlgorithm {
    const testPlanner: EntropyTestPlanner
    var elements: seq<string>
    var observedTests: seq<TestCase>
    var coverageMatrix: seq<seq<bool>>
    var elementStats: seq<ElemStats>
    var availableTests: seq<AvailableTest>

    /**
     * One coverage row of |elements| columns per observed test; the counters are those of the
     * observed tests, and the planner holds them keyed by element.
     */
    ghost predicate Valid()
      reads this, testPlanner
    {
      |coverageMatrix| == |observedTests| &&
      (forall i :: 0 <= i < |coverageMatrix| ==> |coverageMatrix[i]| == |elements|) &&
      elementStats == ElementStatistics(elements, observedTests, coverageMatrix) &&
      testPlanner.componentStats == StatsMap(elementStats)
    }

    constructor ()
      ensures Valid()
      ensures elements == [] && observedTests == [] && availableTests == []
    {
      testPlanner := new EntropyTestPlanner();
      elements, observedTests, coverageMatrix, elementStats, availableTests := [], [], [], [], [];
    }

    /** buildElementStatistics: for each element, the four counters over the observed tests. */
    method BuildElementStatistics() returns (stats: seq<ElemStats>)
      requires |observedTests| <= |coverageMatrix|
      ensures stats == ElementStatistics(elements, observedTests, coverageMatrix)
    {
      stats := [];
      for j := 0 to |elements|
        invariant |stats| == j
        invariant forall k :: 0 <= k < j ==> stats[k] == StatsOf(elements[k], observedTests, coverageMatrix, k)
      {
        var column := CountColumn(j);
        stats := stats + [column];
      }
    }

    /** The inner loop of buildElementStatistics: the four counters of element j over the observed tests. */
    method CountColumn(j: nat) returns (column: ElemStats)
      requires j < |elements| && |observedTests| <= |coverageMatrix|
      ensures column == StatsOf(elements[j], observedTests, coverageMatrix, j)
    {
      var tests, rows := observedTests, coverageMatrix;
      var ef: nat, ep: nat, nf: nat, np: nat := 0, 0, 0, 0;
      for i := 0 to |tests|
        invariant ElemStats(elements[j], ef, ep, nf, np) == StatsOf(elements[j], tests[..i], rows, j)
      {
        assert tests[..i + 1][..i] == tests[..i];
        var covers := j < |rows[i]| && rows[i][j];
        var failed := tests[i].failed;
        if failed && covers {
          ef := ef + 1;
        } else if !failed && covers {
          ep := ep + 1;
        } else if failed && !covers {
          nf := nf + 1;
        } else {
          np := np + 1;
        }
      }
      assert tests[..|tests|] == tests;
      column := ElemStats(elements[j], ef, ep, nf, np);
    }

    /**
     * expandCoverageMatrix, called once the new test is already observed: the earlier rows
     * copied up to the element count, and a last row marking the elements of the actual trace.
     */
    method ExpandCoverageMatrix(newTest: TestResult) returns (newMatrix: seq<seq<bool>>)
      requires 0 < |observedTests| <= |coverageMatrix| + 1
      ensures newMatrix == Expanded(coverageMatrix, |observedTests| - 1, elements, newTest.actualTrace)
    {
      var n := |observedTests| - 1;
      newMatrix := [];
      for i := 0 to n
        invariant |newMatrix| == i
        invariant forall k :: 0 <= k < i ==> newMatrix[k] == Resized(coverageMatrix[k], |elements|)
      {
        var len := if |coverageMatrix[i]| < |elements| then |coverageMatrix[i]| else |elements|;
        var row := CopyRow(coverageMatrix[i], len, |elements|);
        assert row == Resized(coverageMatrix[i], |elements|);
        newMatrix := newMatrix + [row];
      }
      var last := new bool[|elements|](_ => false);
      for j := 0 to |elements|
        invariant forall k :: 0 <= k < j ==> last[k] == (elements[k] in newTest.actualTrace)
      {
        last[j] := elements[j] in newTest.actualTrace;
      }
      assert last[..] == TraceRow(elements, newTest.actualTrace);
      ghost var expanded := Expanded(coverageMatrix, n, elements, newTest.actualTrace);
      assert forall k :: 0 <= k < n ==> expanded[k] == Resized(coverageMatrix[k], |elements|);
      assert expanded[n] == last[..];
      newMatrix := newMatrix + [last[..]];
    }

    /**
     * The observed-row copy of initializeFromGZoltarData: for each observed test, the first m
     * columns of the first full-suite test with its name, or an all-false row.
     */
    method CopyObservedRows(allTests: seq<TestCase>, allCoverage: seq<seq<bool>>) returns (rows: seq<seq<bool>>)
      requires CopyableRows(observedTests, allTests, allCoverage, |elements|)
      ensures rows == InitialRows(observedTests, allTests, allCoverage, |elements|)
    {
      var m := |elements|;
      rows := [];
      for i := 0 to |observedTests|
        invariant |rows| == i
        invariant forall k :: 0 <= k < i ==> rows[k] == InitialRow(observedTests[k].name, allTests, allCoverage, m)
      {
        var testName := observedTests[i].name;
        var row := seq(m, _ => false);
        ghost var first := FirstNamed(allTests, testName);
        var j := 0;
        while j < |allTests|
          invariant j <= |allTests|
          invariant forall k :: 0 <= k < j ==> allTests[k].name != testName
          invariant row == seq(m, _ => false)
        {
          if allTests[j].name == testName {
            assert first == Some(j);
            row := CopyRow(allCoverage[j], m, m);
            assert row == allCoverage[j][..m];
            break;
          }
          j := j + 1;
        }
        rows := rows + [row];
      }
    }

    /** The entries of full-suite coverage row `row` that fall on an element, collected into a set. */
    method TraceOf(row: seq<bool>) returns (trace: set<string>)
      ensures trace == Trace(elements, row)
    {
      trace := {};
      var j := 0;
      while j < |elements| && j < |row|
        invariant j <= |elements|
        invariant trace == set k | 0 <= k < j && Covers(row, k) :: elements[k]
      {
        if row[j] {
          trace := trace + {elements[j]};
        }
        j := j + 1;
      }
      assert trace == Trace(elements, row);
    }

    /** buildAvailableTestsFromAllTests: the non-observed tests with a non-empty trace, in suite order. */
    method BuildAvailableTestsFromAllTests(allTests: seq<TestCase>, allCoverage: seq<seq<bool>>) returns (available: seq<AvailableTest>)
      requires |allTests| <= |allCoverage|
      ensures available == AvailableUpTo(allTests, allCoverage, elements, Names(observedTests), |allTests|)
    {
      var observedTestNames := set t | t in observedTests :: t.name;
      assert observedTestNames == Names(observedTests) by {
        forall name ensures name in observedTestNames <==> name in Names(observedTests) {
          if name in observedTestNames {
            var t :| t in observedTests && t.name == name;
            var i :| 0 <= i < |observedTests| && observedTests[i] == t;
          }
        }
      }
      available := [];
      for i := 0 to |allTests|
        invariant available == AvailableUpTo(allTests, allCoverage, elements, observedTestNames, i)
      {
        var test := allTests[i];
        if test.name in observedTestNames {
          continue;
        }
        var trace := TraceOf(allCoverage[i]);
        if trace != {} {
          available := available + [AvailableTest(test.name, trace)];
        }
      }
    }

    /**
     * initializeFromGZoltarData after the files are read and the initial observations chosen:
     * the observed rows copied, the counters built and handed to the planner, and the pool built.
     */
    method Initialize(elementNames: seq<string>, allTests: seq<TestCase>, allCoverage: seq<seq<bool>>, observed: seq<TestCase>)
      requires CopyableRows(observed, allTests, allCoverage, |elementNames|)
      modifies this, testPlanner
      ensures Valid()
      ensures elements == elementNames && observedTests == observed
      ensures coverageMatrix == InitialRows(observed, allTests, allCoverage, |elementNames|)
      ensures availableTests == AvailableUpTo(allTests, allCoverage, elementNames, Names(observed), |allTests|)
    {
      elements := elementNames;
      observedTests := observed;
      coverageMatrix := CopyObservedRows(allTests, allCoverage);
      elementStats := BuildElementStatistics();
      testPlanner.SetComponentStats(elementStats);
      availableTests := BuildAvailableTestsFromAllTests(allTests, allCoverage);
    }

    /**
     * updateStateWithNewTest: the result appended as an observed test, the matrix expanded by
     * its row, the counters recomputed and handed to the planner, and every available test of
     * that name removed.
     */
    method UpdateStateWithNewTest(testResult: TestResult)
      requires Valid()
      modifies this, testPlanner
      ensures Valid()
      ensures elements == old(elements)
      ensures observedTests == old(observedTests) + [TestCase(testResult.name, testResult.IsFailed())]
      ensures coverageMatrix == Expanded(old(coverageMatrix), |old(observedTests)|, elements, testResult.actualTrace)
      ensures forall j :: 0 <= j < |elements| ==>
        elementStats[j] == Tally(old(elementStats)[j], testResult.IsFailed(), elements[j] in testResult.actualTrace)
      ensures availableTests == RemoveNamed(old(availableTests), testResult.name)
    {
      var newTestCase := TestCase(testResult.name, testResult.IsFailed());
      observedTests := observedTests + [newTestCase];
      coverageMatrix := ExpandCoverageMatrix(testResult);
      elementStats := BuildElementStatistics();
      StatsAfterNewTest(elements, old(observedTests), old(coverageMatrix), newTestCase, testResult.actualTrace);
      testPlanner.SetComponentStats(elementStats);
      availableTests := RemoveNamed(availableTests, testResult.name);
    }

    /**
     * generateCurrentDiagnoses: no diagnoses when conflict extraction finds no conflict,
     * otherwise fresh diagnoses from the hitting-set computation.
     */
    method GenerateCurrentDiagnoses(extract: (seq<TestCase>, seq<seq<bool>>, seq<string>) -> seq<set<string>>,
                                    compute: (seq<set<string>>, seq<ElemStats>, nat) -> seq<Weighted>)
      returns (diagnoses: seq<Diagnosis>)
      ensures Snapshot(diagnoses) == CurrentDiagnoses(extract, compute, observedTests, coverageMatrix, elements, elementStats)
      ensures forall k :: 0 <= k < |diagnoses| ==> fresh(diagnoses[k])
    {
      var conflicts := extract(observedTests, coverageMatrix, elements);
      if |conflicts| == 0 {
        return [];
      }
      diagnoses := NewDiagnoses(compute(conflicts, elementStats, MAX_DIAGNOSES));
    }

    /** The plan step of the loop: the planner's choice among the available tests, if any. */
    method PlanNextTest(diagnoses: seq<Diagnosis>, ln: real -> real) returns (nextTest: Option<AvailableTest>)
      modifies diagnoses
      ensures nextTest.Some? ==> nextTest.value in availableTests
    {
      nextTest := testPlanner.SelectBestTest(availableTests, diagnoses, ln);
    }

    /**
     * executeTDPLoop: at most MAX_ITERATIONS rounds of diagnose, check for completion, plan,
     * test and update. `rounds` counts the tests executed and `last` is the outcome of the last
     * diagnose step, taken on the final state. The result is null when that step found
     * nothing; the most likely diagnosis when the statistics called it complete inside the
     * loop; otherwise the first diagnosis of the last step.
     */
    method ExecuteTdpLoop(extract: (seq<TestCase>, seq<seq<bool>>, seq<string>) -> seq<set<string>>,
                          compute: (seq<set<string>>, seq<ElemStats>, nat) -> seq<Weighted>,
                          complete: seq<Weighted> -> bool, mostLikely: seq<Weighted> -> Weighted, ln: real -> real)
      returns (result: Option<Weighted>, ghost rounds: nat, ghost last: seq<Weighted>)
      requires Valid()
      modifies this, testPlanner
      ensures Valid()
      ensures elements == old(elements)
      ensures rounds <= MAX_ITERATIONS
      ensures forall t :: t in availableTests ==> t in old(availableTests)
      ensures ExecutedFromPool(old(availableTests), |old(observedTests)|, observedTests, availableTests)
      ensures |observedTests| == |old(observedTests)| + rounds && observedTests[..|old(observedTests)|] == old(observedTests)
      ensures last == CurrentDiagnoses(extract, compute, observedTests, coverageMatrix, elements, elementStats)
      ensures result == if last == [] then None
                        else if rounds < MAX_ITERATIONS && complete(last) then Some(mostLikely(last))
                        else Some(last[0])
    {
      var iteration := 1;
      rounds := 0;
      while iteration <= MAX_ITERATIONS
        invariant 1 <= iteration <= MAX_ITERATIONS + 1 && rounds == iteration - 1
        invariant Valid()
        invariant elements == old(elements)
        invariant |observedTests| == |old(observedTests)| + rounds && observedTests[..|old(observedTests)|] == old(observedTests)
        invariant forall t :: t in availableTests ==> t in old(availableTests)
        invariant ExecutedFromPool(old(availableTests), |old(observedTests)|, observedTests, availableTests)
        decreases MAX_ITERATIONS + 1 - iteration
      {
        var diagnoses := GenerateCurrentDiagnoses(extract, compute);
        if |diagnoses| == 0 {
          return None, rounds, [];
        }
        var current := Snapshot(diagnoses);
        if complete(current) {
          return Some(mostLikely(current)), rounds, current;
        }
        var nextTest := PlanNextTest(diagnoses, ln);
        if nextTest.None? {
          break;
        }
        var passed: bool :| true;
        var testResult := TestResult(nextTest.value.name, passed, nextTest.value.trace);
        ghost var before := observedTests;
        ghost var pool := availableTests;
        UpdateStateWithNewTest(testResult);
        assert observedTests[..|before|] == before;
        forall t | t in availableTests ensures t in pool {
          RemoveNamedMembers(pool, testResult.name, t);
        }
        ExecutedFromPoolStep(old(availableTests), |old(observedTests)|, before, pool, nextTest.value, testResult.IsFailed());
        iteration := iteration + 1;
        rounds := rounds + 1;
      }
      var finalDiagnoses := GenerateCurrentDiagnoses(extract, compute);
      last := Snapshot(finalDiagnoses);
      if |finalDiagnoses| == 0 {
        result := None;
      } else {
        result := Some(Weighted(finalDiagnoses[0].components, finalDiagnoses[0].probability));
      }
    }
  }
}
