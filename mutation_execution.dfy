/**
 * Mutation analysis of a test (MutationExecutionManager.java): for every
 * mutated class, run the test on the original class (plain, then tracking
 * and verifying operation results), skip the class if the test finds
 * faults, learn which mutants the test reaches, and run the test once per
 * reached mutant with a time budget, recording it as killed or alive.
 * Running the test is an oracle given per class.
 */
module MutationExecution {
  import opened Wrappers
  import opened MutationScore

  /** The tracker data handed to every run; slot 0 describes the mutant. */
  datatype TrackerDatum<D> =
    | Supplied(datum: D)
    | MutationExecutionData(className: string, mutation: nat, maxExecutionTime: int)

  /** How the test's operations are instrumented: as given, tracking results, verifying them. */
  datatype Instrumentation = Plain | TrackResults | VerifyResults

  /** What a run of the test leaves in the inherited `executionTime` and `faults` fields. */
  datatype Run = Run(time: int, faults: int)

  /** How the run of one mutant ends: its reported time, or an exception. */
  datatype MutantRun = Finished(time: int) | Threw

  /**
   * One mutated class as its runs see it: whether the reflective lookups
   * succeed, the number of mutants, the test run for a mutant selector and
   * an instrumentation, the executed-mutants set after the discovery run
   * (`None` when it cannot be read), and the run of one mutant for a budget.
   */
  datatype ClassUnderMutation = ClassUnderMutation(
    className: string,
    reflectionOk: bool,
    maxMutations: int,
    run: (int, Instrumentation) -> Run,
    executed: Option<set<nat>>,
    mutant: (nat, int) -> MutantRun)

  /** The record a single-class coverage keeps: mutants not executed, killed ones, alive ones with their time. */
  datatype MutantRecord = MutantRecord(notExecuted: set<nat>, killed: set<nat>, alive: map<nat, int>)

  // ---------------------------------------------------------------------------
  // BitSet
  // ---------------------------------------------------------------------------

  /** An upper bound on a finite set of indices. */
  ghost function Bound(s: set<nat>): (b: nat)
    ensures forall x :: x in s ==> x < b
    decreases s
  {
    if s == {} then 0
    else
      var x :| x in s;
      var rest := Bound(s - {x});
      assert forall y :: y in s ==> y == x || y in s - {x};
      if x < rest then rest else x + 1
  }

  /** `BitSet.nextSetBit`: the least index at or after `from`, or -1. */
  function NextSetBit(s: set<nat>, from: nat): (r: int)
    ensures r >= -1
    ensures r == -1 <==> forall x :: x in s ==> x < from
    ensures r >= 0 ==> r in s && from <= r && forall x :: x in s && from <= x ==> r <= x
    decreases Bound(s) - from
  {
    if forall x :: x in s ==> x < from then -1
    else if from in s then from
    else NextSetBit(s, from + 1)
  }

  /** The indices `lo` (inclusive) to `hi` (exclusive), as `BitSet.set(lo, hi)` sets them. */
  function Range(lo: nat, hi: int): (r: set<nat>)
    ensures forall i: nat :: i in r <==> lo <= i < hi
    decreases hi - lo
  {
    if hi <= lo then {} else Range(lo, hi - 1) + {hi - 1}
  }

  /**
   * The not-executed mutants: `[1, maxMutations]` when the executed set is
   * unknown, otherwise the executed set with `[1, maxMutations]` flipped.
   */
  function NotExecuted(executed: Option<set<nat>>, maxMutations: int): set<nat> {
    var r := Range(1, maxMutations + 1);
    if executed.None? then r else (executed.value - r) + (r - executed.value)
  }

  /** Within `[1, maxMutations]` the not-executed set is the complement of the executed one; outside it, the same. */
  lemma NotExecutedComplement(executed: Option<set<nat>>, maxMutations: int, x: nat)
    ensures executed.None? ==> (x in NotExecuted(executed, maxMutations) <==> 1 <= x <= maxMutations)
    ensures executed.Some? && 1 <= x <= maxMutations ==>
              (x in NotExecuted(executed, maxMutations) <==> x !in executed.value)
    ensures executed.Some? && !(1 <= x <= maxMutations) ==>
              (x in NotExecuted(executed, maxMutations) <==> x in executed.value)
  {
  }

  // ---------------------------------------------------------------------------
  // The per-class stages
  // ---------------------------------------------------------------------------

  /** The last run before discovery: the verifying run when the plain run found no fault, otherwise the plain run. */
  function LastPreDiscovery(c: ClassUnderMutation, instr: Instrumentation): Run {
    if c.run(0, instr).faults == 0 then c.run(0, VerifyResults) else c.run(0, instr)
  }

  /** The test's instrumentation after the class is processed. */
  function InstrumentationAfter(c: ClassUnderMutation, instr: Instrumentation): Instrumentation {
    if c.reflectionOk && c.run(0, instr).faults == 0 then VerifyResults else instr
  }

  /** The last run the class's processing performs: the discovery run (selector -1) unless faults stopped it. */
  function FinalRun(c: ClassUnderMutation, instr: Instrumentation): Run {
    if LastPreDiscovery(c, instr).faults > 0 then LastPreDiscovery(c, instr)
    else c.run(-1, InstrumentationAfter(c, instr))
  }

  /** The time budget of every mutant run. */
  function Budget(c: ClassUnderMutation, instr: Instrumentation): int {
    5 * LastPreDiscovery(c, instr).time + 500
  }

  predicate IsKilled(m: MutantRun, errorExecution: int) {
    m.Finished? && m.time < 0 && m.time != errorExecution
  }

  predicate IsAlive(m: MutantRun) {
    m.Finished? && m.time >= 0
  }

  /** The record after the mutants in `visited` were run with `budget`. */
  ghost function Classified(c: ClassUnderMutation, notExecuted: set<nat>, budget: int, errorExecution: int, visited: set<nat>): MutantRecord {
    MutantRecord(
      notExecuted,
      set m | m in visited && IsKilled(c.mutant(m, budget), errorExecution),
      map m | m in visited && IsAlive(c.mutant(m, budget)) :: c.mutant(m, budget).time)
  }

  /**
   * What `executeMutantsOnSingleClass` returns: nothing when reflection
   * fails, when the test finds faults, when the mutant count is negative
   * (the bit range is refused) or when the executed set cannot be read;
   * otherwise every executed mutant classified.
   */
  ghost function ClassResult(c: ClassUnderMutation, instr: Instrumentation, errorExecution: int): Option<MutantRecord> {
    if !c.reflectionOk || LastPreDiscovery(c, instr).faults > 0 || c.maxMutations < 0 || c.executed.None? then None
    else Some(Classified(c, NotExecuted(c.executed, c.maxMutations), Budget(c, instr), errorExecution, c.executed.value))
  }

  /** A result exists exactly when none of the four early exits is taken. */
  lemma ClassResultExists(c: ClassUnderMutation, instr: Instrumentation, errorExecution: int)
    ensures ClassResult(c, instr, errorExecution).Some? <==>
              c.reflectionOk && LastPreDiscovery(c, instr).faults <= 0 && c.maxMutations >= 0 && c.executed.Some?
    ensures c.reflectionOk && c.run(0, instr).faults == 0 && c.run(0, VerifyResults).faults > 0 ==>
              ClassResult(c, instr, errorExecution).None?
    ensures c.run(0, instr).faults > 0 ==> ClassResult(c, instr, errorExecution).None?
  {
  }

  /**
   * Every executed mutant is classified once: alive with its time when it
   * finished in non-negative time, killed when it finished in negative time
   * other than the error marker, and neither otherwise.
   */
  lemma ClassResultClassifies(c: ClassUnderMutation, instr: Instrumentation, errorExecution: int, m: nat)
    requires ClassResult(c, instr, errorExecution).Some?
    ensures var rec := ClassResult(c, instr, errorExecution).value;
            var run := c.mutant(m, Budget(c, instr));
            (m in rec.alive <==> m in c.executed.value && IsAlive(run)) &&
            (m in rec.alive ==> rec.alive[m] == run.time) &&
            (m in rec.killed <==> m in c.executed.value && IsKilled(run, errorExecution)) &&
            !(m in rec.alive && m in rec.killed) &&
            rec.notExecuted == NotExecuted(c.executed, c.maxMutations)
  {
  }

  /** The budget is computed from the verifying run's time whenever that run happened. */
  lemma BudgetFromLastRun(c: ClassUnderMutation, instr: Instrumentation)
    ensures c.run(0, instr).faults == 0 ==> Budget(c, instr) == 5 * c.run(0, VerifyResults).time + 500
    ensures c.run(0, instr).faults != 0 ==> Budget(c, instr) == 5 * c.run(0, instr).time + 500
  {
  }

  /** `record` classifies exactly the mutants in `visited`. */
  ghost predicate Records(c: ClassUnderMutation, record: MutantRecord, budget: int, errorExecution: int, visited: set<nat>) {
    (forall m :: m in record.killed <==> m in visited && IsKilled(c.mutant(m, budget), errorExecution)) &&
    (forall m :: m in record.alive <==> m in visited && IsAlive(c.mutant(m, budget))) &&
    (forall m :: m in record.alive ==> c.mutant(m, budget) == Finished(record.alive[m]))
  }

  /** Recording one more mutant: alive with its time, killed, or neither. */
  lemma RecordStep(c: ClassUnderMutation, record: MutantRecord, budget: int, errorExecution: int, visited: set<nat>, m: nat)
    requires Records(c, record, budget, errorExecution, visited)
    ensures var run := c.mutant(m, budget);
            (IsAlive(run) ==> Records(c, record.(alive := record.alive[m := run.time]), budget, errorExecution, visited + {m})) &&
            (IsKilled(run, errorExecution) ==> Records(c, record.(killed := record.killed + {m}), budget, errorExecution, visited + {m})) &&
            (!IsAlive(run) && !IsKilled(run, errorExecution) ==> Records(c, record, budget, errorExecution, visited + {m}))
  {
  }

  /** A record is the classification of `visited` when it agrees with it on every mutant. */
  lemma ClassifiedExtensional(c: ClassUnderMutation, record: MutantRecord, budget: int, errorExecution: int, visited: set<nat>)
    requires Records(c, record, budget, errorExecution, visited)
    ensures record == Classified(c, record.notExecuted, budget, errorExecution, visited)
  {
    var r := Classified(c, record.notExecuted, budget, errorExecution, visited);
    assert record.killed == r.killed;
    assert record.alive.Keys == r.alive.Keys;
  }

  /**
   * The sweep's bookkeeping before visiting `mutation` (-1 once done):
   * `visits` is increasing and holds exactly the executed indices below it.
   */
  ghost predicate Swept(executed: set<nat>, seen: set<nat>, visits: seq<nat>, mutation: int) {
    (forall i, j :: 0 <= i < j < |visits| ==> visits[i] < visits[j]) &&
    (forall x :: x in visits <==> x in seen) &&
    (forall x :: x in seen ==> x in executed && (mutation >= 0 ==> x < mutation)) &&
    (forall x :: x in executed && (mutation < 0 || x < mutation) ==> x in seen)
  }

  lemma SweepDone(executed: set<nat>, seen: set<nat>, visits: seq<nat>)
    requires Swept(executed, seen, visits, -1)
    ensures seen == executed
    ensures forall x :: x in visits <==> x in executed
  {
  }

  lemma SweepStep(executed: set<nat>, seen: set<nat>, visits: seq<nat>, mutation: nat)
    requires mutation in executed && Swept(executed, seen, visits, mutation)
    ensures Swept(executed, seen + {mutation}, visits + [mutation], NextSetBit(executed, mutation + 1))
  {
    var next := NextSetBit(executed, mutation + 1);
    var visits', seen' := visits + [mutation], seen + {mutation};
    forall i, j | 0 <= i < j < |visits'|
      ensures visits'[i] < visits'[j]
    {
      assert visits'[i] == visits[i] && visits[i] in seen;
    }
    forall x | x in seen'
      ensures x in executed && (next >= 0 ==> x < next)
    {
    }
    forall x | x in executed && (next < 0 || x < next)
      ensures x in seen'
    {
      if x > mutation {
        assert false;
      }
    }
  }

  // ---------------------------------------------------------------------------
  // All classes
  // ---------------------------------------------------------------------------

  /** The single-class coverages after processing `cs`, starting from `covs`; a class without result adds nothing. */
  ghost function CovsAfter(ops: SingleOps<MutantRecord>, covs: Covs<MutantRecord>, cs: seq<ClassUnderMutation>,
                           instr: Instrumentation, errorExecution: int): Covs<MutantRecord>
    decreases |cs|
  {
    if |cs| == 0 then covs
    else
      var r := ClassResult(cs[0], instr, errorExecution);
      var covs' := if r.Some? then covs[cs[0].className := Added(ops, covs, cs[0].className, r.value)] else covs;
      CovsAfter(ops, covs', cs[1..], InstrumentationAfter(cs[0], instr), errorExecution)
  }

  /** The instrumentation in force when the `i`-th class is processed. */
  function InstrumentationAt(cs: seq<ClassUnderMutation>, instr: Instrumentation, i: nat): Instrumentation
    requires i <= |cs|
  {
    if i == 0 then instr else InstrumentationAt(cs[1..], InstrumentationAfter(cs[0], instr), i - 1)
  }

  /**
   * The coverage gains exactly the classes that produced a result; a class
   * without one does not stop the classes after it.
   */
  lemma {:induction false} CovsAfterKeys(ops: SingleOps<MutantRecord>, covs: Covs<MutantRecord>, cs: seq<ClassUnderMutation>,
                                         instr: Instrumentation, errorExecution: int)
    ensures forall k :: k in CovsAfter(ops, covs, cs, instr, errorExecution) <==>
              k in covs ||
              exists i :: 0 <= i < |cs| && cs[i].className == k &&
                          ClassResult(cs[i], InstrumentationAt(cs, instr, i), errorExecution).Some?
    decreases |cs|
  {
    if |cs| > 0 {
      var r := ClassResult(cs[0], instr, errorExecution);
      var covs' := if r.Some? then covs[cs[0].className := Added(ops, covs, cs[0].className, r.value)] else covs;
      var instr' := InstrumentationAfter(cs[0], instr);
      CovsAfterKeys(ops, covs', cs[1..], instr', errorExecution);
      forall k
        ensures k in CovsAfter(ops, covs, cs, instr, errorExecution) <==>
                k in covs ||
                exists i :: 0 <= i < |cs| && cs[i].className == k &&
                            ClassResult(cs[i], InstrumentationAt(cs, instr, i), errorExecution).Some?
      {
        if k in CovsAfter(ops, covs, cs, instr, errorExecution) && k !in covs {
          if k in covs' {
            assert cs[0].className == k && InstrumentationAt(cs, instr, 0) == instr;
          } else {
            var i :| 0 <= i < |cs[1..]| && cs[1..][i].className == k &&
                     ClassResult(cs[1..][i], InstrumentationAt(cs[1..], instr', i), errorExecution).Some?;
            assert InstrumentationAt(cs, instr, i + 1) == InstrumentationAt(cs[1..], instr', i);
          }
        }
        if k !in covs && exists i :: 0 <= i < |cs| && cs[i].className == k &&
                            ClassResult(cs[i], InstrumentationAt(cs, instr, i), errorExecution).Some? {
          var i :| 0 <= i < |cs| && cs[i].className == k &&
                   ClassResult(cs[i], InstrumentationAt(cs, instr, i), errorExecution).Some?;
          if i > 0 {
            assert InstrumentationAt(cs, instr, i) == InstrumentationAt(cs[1..], instr', i - 1);
            assert cs[1..][i - 1] == cs[i];
          }
        }
      }
    }
  }

  // ---------------------------------------------------------------------------
  // The manager
  // ---------------------------------------------------------------------------

  class MutationExecutionManager<D> {
    /** Slot 0 describes the mutant being run; the others hold the supplied data. */
    var trackerData: array<Option<TrackerDatum<D>>>
    ghost const data: seq<D>
    /** The result: one single-class coverage per class. */
    const coverage: MutationCoverage<MutantRecord>
    /** The marker time a mutant run reports when it fails. */
    const errorExecution: int
    /** How the test's operations are currently instrumented. */
    var instrumentation: Instrumentation
    /** What the last run of the test left behind. */
    var executionTime: int
    var faults: int

    ghost predicate Valid()
      reads this, trackerData
    {
      trackerData.Length == |data| + 1 &&
      forall i :: 0 <= i < |data| ==> trackerData[i + 1] == Some(Supplied(data[i]))
    }

    /** The constructor's layout of the tracker data: the supplied data shifted up by one. */
    constructor (data: seq<D>, ops: SingleOps<MutantRecord>, errorExecution: int)
      ensures this.data == data && Valid() && fresh(trackerData) && trackerData[0] == None
      ensures fresh(coverage) && coverage.ops == ops && coverage.covs == map[]
      ensures this.errorExecution == errorExecution && instrumentation == Plain
    {
      var td := new Option<TrackerDatum<D>>[|data| + 1](_ => None);
      var i := 1;
      for k := 0 to |data|
        invariant i == k + 1
        invariant td[0] == None
        invariant forall j :: 0 <= j < k ==> td[j + 1] == Some(Supplied(data[j]))
      {
        td[i] := Some(Supplied(data[k]));
        i := i + 1;
      }
      this.data := data;
      trackerData := td;
      coverage := new MutationCoverage(ops);
      this.errorExecution := errorExecution;
      instrumentation := Plain;
      executionTime := 0;
      faults := 0;
    }

    /** One run of the test: it leaves its time and fault count behind. */
    method RunTest(c: ClassUnderMutation, selector: int)
      modifies this
      ensures executionTime == c.run(selector, instrumentation).time && faults == c.run(selector, instrumentation).faults
      ensures instrumentation == old(instrumentation) && trackerData == old(trackerData)
    {
      var r := c.run(selector, instrumentation);
      executionTime := r.time;
      faults := r.faults;
    }

    /** `executeMutantsOnSingleClass`, with the mutants visited in increasing order returned as `visits`. */
    method ExecuteMutantsOnSingleClass(c: ClassUnderMutation) returns (r: Option<MutantRecord>, ghost visits: seq<nat>)
      requires Valid()
      modifies this, trackerData
      ensures Valid() && trackerData == old(trackerData)
      ensures r == ClassResult(c, old(instrumentation), errorExecution)
      ensures instrumentation == InstrumentationAfter(c, old(instrumentation))
      ensures c.reflectionOk ==> executionTime == FinalRun(c, old(instrumentation)).time &&
                                 faults == FinalRun(c, old(instrumentation)).faults
      ensures r.Some? ==> (forall i, j :: 0 <= i < j < |visits| ==> visits[i] < visits[j]) &&
                          (forall x :: x in visits <==> x in c.executed.value)
      ensures r.Some? && |visits| > 0 ==>
                trackerData[0] == Some(MutationExecutionData(c.className, visits[|visits| - 1], Budget(c, old(instrumentation))))
      ensures r.None? ==> visits == [] && trackerData[0] == old(trackerData[0])
      ensures |visits| == 0 ==> trackerData[0] == old(trackerData[0])
      ensures !c.reflectionOk ==> executionTime == old(executionTime) && faults == old(faults)
    {
      visits := [];
      if !c.reflectionOk {
        return None, visits;
      }
      ghost var instr := instrumentation;

      // the original class, plain; then tracking and verifying operation results
      RunTest(c, 0);
      if faults == 0 {
        instrumentation := TrackResults;
        RunTest(c, 0);
        instrumentation := VerifyResults;
        RunTest(c, 0);
      }
      assert executionTime == LastPreDiscovery(c, instr).time && faults == LastPreDiscovery(c, instr).faults;
      if faults > 0 {
        return None, visits;
      }
      var originalExecutionTime := executionTime;

      // the discovery run
      RunTest(c, -1);
      var executedMutants := c.executed;

      if c.maxMutations < 0 {
        return None, visits;
      }
      var notExecutedMutants := NotExecuted(executedMutants, c.maxMutations);
      if executedMutants.None? {
        return None, visits;
      }
      var record;
      record, visits := Sweep(c, executedMutants.value, notExecutedMutants, 5 * originalExecutionTime + 500);
      return Some(record), visits;
    }

    /** Slot 0 describes the last mutant visited with its budget, or is as it was before any visit. */
    ghost predicate SlotZero(c: ClassUnderMutation, visits: seq<nat>, budget: int, before: Option<TrackerDatum<D>>)
      reads this, trackerData
    {
      trackerData.Length > 0 &&
      trackerData[0] == if |visits| > 0 then Some(MutationExecutionData(c.className, visits[|visits| - 1], budget)) else before
    }

    /** One mutant run: slot 0 of the tracker data describes the mutant and its budget. */
    method RunMutant(c: ClassUnderMutation, mutation: nat, maxExecutionTime: int) returns (outcome: MutantRun)
      requires Valid()
      modifies trackerData
      ensures Valid()
      ensures trackerData[0] == Some(MutationExecutionData(c.className, mutation, maxExecutionTime))
      ensures outcome == c.mutant(mutation, maxExecutionTime)
    {
      trackerData[0] := Some(MutationExecutionData(c.className, mutation, maxExecutionTime));
      outcome := c.mutant(mutation, maxExecutionTime);
    }

    /** The sweep over every executed mutant, in increasing order, each run with the budget in slot 0 of the tracker data. */
    method Sweep(c: ClassUnderMutation, executed: set<nat>, notExecutedMutants: set<nat>, maxExecutionTime: int)
      returns (record: MutantRecord, ghost visits: seq<nat>)
      requires Valid()
      modifies trackerData
      ensures Valid()
      ensures record == Classified(c, notExecutedMutants, maxExecutionTime, errorExecution, executed)
      ensures forall i, j :: 0 <= i < j < |visits| ==> visits[i] < visits[j]
      ensures forall x :: x in visits <==> x in executed
      ensures |visits| > 0 ==> trackerData[0] == Some(MutationExecutionData(c.className, visits[|visits| - 1], maxExecutionTime))
      ensures |visits| == 0 ==> trackerData[0] == old(trackerData[0])
    {
      visits := [];
      ghost var seen: set<nat> := {};
      record := MutantRecord(notExecutedMutants, {}, map[]);

      var mutation := NextSetBit(executed, 0);
      while mutation >= 0
        invariant mutation == -1 || mutation in executed
        invariant Swept(executed, seen, visits, mutation)
        invariant record.notExecuted == notExecutedMutants
        invariant Records(c, record, maxExecutionTime, errorExecution, seen)
        invariant Valid()
        invariant SlotZero(c, visits, maxExecutionTime, old(trackerData[0]))
        decreases if mutation < 0 then 0 else Bound(executed) + 1 - mutation
      {
        var m: nat := mutation;
        var outcome := RunMutant(c, m, maxExecutionTime);
        RecordStep(c, record, maxExecutionTime, errorExecution, seen, m);
        if outcome.Finished? {
          var executionTime := outcome.time;
          if executionTime < 0 {
            if executionTime != errorExecution {
              record := record.(killed := record.killed + {m});
            }
          } else {
            record := record.(alive := record.alive[m := executionTime]);
          }
        }
        SweepStep(executed, seen, visits, m);
        visits := visits + [m];
        seen := seen + {m};
        mutation := NextSetBit(executed, m + 1);
      }
      SweepDone(executed, seen, visits);
      ClassifiedExtensional(c, record, maxExecutionTime, errorExecution, executed);
    }

    /** `reallyExecute`: every class in turn; a class's result is added only when there is one. */
    method ReallyExecute(classes: seq<ClassUnderMutation>)
      requires Valid()
      modifies this, trackerData, coverage
      ensures Valid()
      ensures coverage.covs == CovsAfter(coverage.ops, old(coverage.covs), classes, old(instrumentation), errorExecution)
    {
      for i := 0 to |classes|
        invariant Valid() && trackerData == old(trackerData)
        invariant CovsAfter(coverage.ops, old(coverage.covs), classes, old(instrumentation), errorExecution) ==
                  CovsAfter(coverage.ops, coverage.covs, classes[i..], instrumentation, errorExecution)
      {
        assert classes[i..][1..] == classes[i + 1..];
        var singleCov, _ := ExecuteMutantsOnSingleClass(classes[i]);
        if singleCov.Some? {
          coverage.Add(classes[i].className, singleCov.value);
        }
      }
    }
  }
}
