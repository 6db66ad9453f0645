/**
 * The checker framework: a checker runs its enabled checks in declared
 * order, collecting issues and a dictionary of intermediate results, and
 * halts early under a fixed rule; a chain runs whole checkers in sequence,
 * forwarding the intermediate results from one to the next.
 *
 * A check is identified by a value of type `R`; what it does is given by
 * an evaluator that maps the check and the current intermediate results to
 * its outcome: the issues it appended, the truth value it returned (its
 * "stop" flag) and the intermediate results it set, or the exception it
 * raised.
 */
module CheckerFramework {
  import opened Wrappers

  /** The values stored in the intermediate-results dictionary. */
  datatype Value = NoneValue | FloatValue(x: real) | TextValue(s: string)

  type Results = map<string, Value>

  /** The Python exceptions a check can raise. */
  datatype PyError = KeyError(key: string) | TypeError | IndexError | ValueError | AssertionError

  datatype CheckOutcome<I> =
    | Returned(appended: seq<I>, shouldStop: bool, updates: Results)
    | Raised(error: PyError)

  /**
   * How a run ended. `StoppedWithoutIssue` and `MissingCheckMethod` are the
   * two assertion failures of the driver; `CheckRaised` is an exception that
   * escaped a check.
   */
  datatype Status<R> =
    | Completed
    | StoppedWithoutIssue(check: R)
    | CheckRaised(check: R, error: PyError)
    | MissingCheckMethod(check: R)

  datatype Run<R, I> = Run(issues: seq<I>, results: Results, status: Status<R>)

  /**
   * The two halting rules. A checker halts after a check once its issue list
   * is non-empty and either it stops after the first issue or the check
   * returned True; a chain halts after a member that reported issues when it
   * stops after the first issue.
   */
  datatype HaltRule = AfterAnyIssue(stopAfterFirstIssue: bool) | AfterReportingMember(stopAfterFirstIssue: bool)

  /** Whether the run halts after a step with outcome `out`, `before` being the issues before that step. */
  predicate Halts<I>(rule: HaltRule, before: seq<I>, out: CheckOutcome<I>) {
    out.Returned? &&
    match rule
    case AfterAnyIssue(stop) => before + out.appended != [] && (stop || out.shouldStop)
    case AfterReportingMember(stop) => out.appended != [] && stop
  }

  /** The effect of one step, including the driver's assertion that a check returning True added an issue. */
  function Apply<R, I>(s: Run<R, I>, check: R, out: CheckOutcome<I>): (r: Run<R, I>)
    ensures s.issues <= r.issues
    ensures out.Raised? ==> r == s.(status := CheckRaised(check, out.error))
    ensures out.Returned? ==> r.results == s.results + out.updates && |r.issues| == |s.issues| + |out.appended|
    ensures r.status.StoppedWithoutIssue? <==> out.Returned? && out.shouldStop && out.appended == []
    ensures s.status.Completed? ==> !r.status.MissingCheckMethod?
  {
    match out
    case Raised(e) => s.(status := CheckRaised(check, e))
    case Returned(appended, stop, updates) =>
      Run(s.issues + appended, s.results + updates,
          if stop && |appended| == 0 then StoppedWithoutIssue(check) else Completed)
  }

  /** The driver loop: run `checks` in order, halting early by `rule`. */
  function Drive<R, I>(checks: seq<R>, eval: (R, Results) -> CheckOutcome<I>, rule: HaltRule,
                       issues: seq<I>, results: Results): (r: Run<R, I>)
    ensures issues <= r.issues
    ensures !r.status.MissingCheckMethod?
    decreases |checks|
  {
    if checks == [] then Run(issues, results, Completed)
    else
      var out := eval(checks[0], results);
      var s := Apply(Run(issues, results, Completed), checks[0], out);
      if !s.status.Completed? || Halts(rule, issues, out) then s
      else Drive(checks[1..], eval, rule, s.issues, s.results)
  }

  /** How many checks the driver loop evaluates. */
  function Executed<R, I>(checks: seq<R>, eval: (R, Results) -> CheckOutcome<I>, rule: HaltRule,
                          issues: seq<I>, results: Results): (k: nat)
    ensures k <= |checks| && (k == 0 <==> checks == [])
    decreases |checks|
  {
    if checks == [] then 0
    else
      var out := eval(checks[0], results);
      var s := Apply(Run(issues, results, Completed), checks[0], out);
      if !s.status.Completed? || Halts(rule, issues, out) then 1
      else 1 + Executed(checks[1..], eval, rule, s.issues, s.results)
  }

  /** Running `checks` in order with no early halt (an exception or a failed assertion still ends the run). */
  function RunAll<R, I>(checks: seq<R>, eval: (R, Results) -> CheckOutcome<I>,
                        issues: seq<I>, results: Results): (r: Run<R, I>)
    ensures issues <= r.issues
    decreases |checks|
  {
    if checks == [] then Run(issues, results, Completed)
    else
      var s := Apply(Run(issues, results, Completed), checks[0], eval(checks[0], results));
      if !s.status.Completed? then s
      else RunAll(checks[1..], eval, s.issues, s.results)
  }

  /** The halting rule holds right after the `j`-th check, in the run of all checks before it. */
  predicate HaltsAfter<R, I>(checks: seq<R>, eval: (R, Results) -> CheckOutcome<I>, rule: HaltRule,
                             issues: seq<I>, results: Results, j: nat)
    requires j < |checks|
  {
    var before := RunAll(checks[..j], eval, issues, results);
    before.status.Completed? && Halts(rule, before.issues, eval(checks[j], before.results))
  }

  lemma RunAllShift<R, I>(checks: seq<R>, eval: (R, Results) -> CheckOutcome<I>,
                          issues: seq<I>, results: Results, j: nat)
    requires 1 <= j <= |checks|
    requires Apply(Run(issues, results, Completed), checks[0], eval(checks[0], results)).status.Completed?
    ensures var s := Apply(Run(issues, results, Completed), checks[0], eval(checks[0], results));
      RunAll(checks[..j], eval, issues, results) == RunAll(checks[1..][..j - 1], eval, s.issues, s.results)
  {
    SliceShift(checks, j);
  }

  lemma SliceShift<R>(checks: seq<R>, j: nat)
    requires 1 <= j <= |checks|
    ensures checks[..j] != [] && checks[..j][0] == checks[0] && checks[..j][1..] == checks[1..][..j - 1]
  {
  }

  /**
   * The driver evaluates exactly the first `Executed` checks, in declared
   * order, each of them seeing the results left by the ones before it; it
   * does not halt before the last of them, and when it stops before the end
   * of the list normally, the halting rule held after the last check run.
   */
  lemma {:induction false} DriveRunsPrefix<R, I>(checks: seq<R>, eval: (R, Results) -> CheckOutcome<I>,
                                                 rule: HaltRule, issues: seq<I>, results: Results)
    ensures var k := Executed(checks, eval, rule, issues, results);
      var r := Drive(checks, eval, rule, issues, results);
      && r == RunAll(checks[..k], eval, issues, results)
      && (forall j | 0 <= j < k :: RunAll(checks[..j], eval, issues, results).status.Completed?)
      && (forall j | 0 <= j < k - 1 :: !HaltsAfter(checks, eval, rule, issues, results, j))
      && (k < |checks| && r.status.Completed? ==> k >= 1 && HaltsAfter(checks, eval, rule, issues, results, k - 1))
  {
    if checks != [] {
      var out := eval(checks[0], results);
      var s := Apply(Run(issues, results, Completed), checks[0], out);
      var k := Executed(checks, eval, rule, issues, results);
      assert checks[..0] == [];
      if !s.status.Completed? || Halts(rule, issues, out) {
        assert k == 1;
        assert checks[..1][1..] == [];
      } else {
        var tail := checks[1..];
        DriveRunsPrefix(tail, eval, rule, s.issues, s.results);
        var k' := Executed(tail, eval, rule, s.issues, s.results);
        assert k == k' + 1;
        RunAllShift(checks, eval, issues, results, k);
        PrefixesCompleteShift(checks, eval, issues, results, k);
        NoHaltShift(checks, eval, rule, issues, results, k);
        if k < |checks| && Drive(checks, eval, rule, issues, results).status.Completed? {
          assert k' >= 1;
          RunAllShift(checks, eval, issues, results, k - 1);
          assert checks[k - 1] == tail[k' - 1];
          assert HaltsAfter(tail, eval, rule, s.issues, s.results, k' - 1);
        }
      }
    }
  }

  /** The prefixes of a run that completed its first check complete when those of the rest do. */
  lemma PrefixesCompleteShift<R, I>(checks: seq<R>, eval: (R, Results) -> CheckOutcome<I>,
                                    issues: seq<I>, results: Results, k: nat)
    requires 1 <= k <= |checks|
    requires Apply(Run(issues, results, Completed), checks[0], eval(checks[0], results)).status.Completed?
    requires var s := Apply(Run(issues, results, Completed), checks[0], eval(checks[0], results));
      forall j | 0 <= j < k - 1 :: RunAll(checks[1..][..j], eval, s.issues, s.results).status.Completed?
    ensures forall j | 0 <= j < k :: RunAll(checks[..j], eval, issues, results).status.Completed?
  {
    forall j | 0 <= j < k
      ensures RunAll(checks[..j], eval, issues, results).status.Completed?
    {
      if j == 0 {
        RunAllNone(checks, eval, issues, results);
      } else {
        RunAllShift(checks, eval, issues, results, j);
      }
    }
  }

  /** A run that does not halt after its first check halts after a later one only as the rest does. */
  lemma NoHaltShift<R, I>(checks: seq<R>, eval: (R, Results) -> CheckOutcome<I>, rule: HaltRule,
                          issues: seq<I>, results: Results, k: nat)
    requires 1 <= k <= |checks|
    requires Apply(Run(issues, results, Completed), checks[0], eval(checks[0], results)).status.Completed?
    requires !Halts(rule, issues, eval(checks[0], results))
    requires var s := Apply(Run(issues, results, Completed), checks[0], eval(checks[0], results));
      forall j | 0 <= j < k - 2 :: !HaltsAfter(checks[1..], eval, rule, s.issues, s.results, j)
    ensures forall j | 0 <= j < k - 1 :: !HaltsAfter(checks, eval, rule, issues, results, j)
  {
    var s := Apply(Run(issues, results, Completed), checks[0], eval(checks[0], results));
    forall j | 0 <= j < k - 1
      ensures !HaltsAfter(checks, eval, rule, issues, results, j)
    {
      if j == 0 {
        RunAllNone(checks, eval, issues, results);
      } else {
        RunAllShift(checks, eval, issues, results, j);
        assert checks[j] == checks[1..][j - 1];
        assert !HaltsAfter(checks[1..], eval, rule, s.issues, s.results, j - 1);
      }
    }
  }

  /** Without early halting and without a failure, a run evaluates every check. */
  lemma {:induction false} DriveWithoutHaltRunsAll<R, I>(checks: seq<R>, eval: (R, Results) -> CheckOutcome<I>,
                                                         rule: HaltRule, issues: seq<I>, results: Results)
    requires forall j | 0 <= j < |checks| :: !HaltsAfter(checks, eval, rule, issues, results, j)
    ensures Drive(checks, eval, rule, issues, results) == RunAll(checks, eval, issues, results)
  {
    DriveRunsPrefix(checks, eval, rule, issues, results);
    var k := Executed(checks, eval, rule, issues, results);
    var r := Drive(checks, eval, rule, issues, results);
    if k < |checks| {
      assert !HaltsAfter(checks, eval, rule, issues, results, k - 1);
      assert !r.status.Completed?;
      RunAllStopsOnFailure(checks, eval, issues, results, k);
    } else {
      assert checks[..k] == checks;
    }
  }

  /** Once a run of a prefix has failed, running further checks changes nothing. */
  lemma {:induction false} RunAllStopsOnFailure<R, I>(checks: seq<R>, eval: (R, Results) -> CheckOutcome<I>,
                                                      issues: seq<I>, results: Results, k: nat)
    requires k <= |checks|
    requires !RunAll(checks[..k], eval, issues, results).status.Completed?
    ensures RunAll(checks, eval, issues, results) == RunAll(checks[..k], eval, issues, results)
  {
    if k == |checks| {
      assert checks[..k] == checks;
    } else if k == 0 {
      assert false;
    } else {
      var s := Apply(Run(issues, results, Completed), checks[0], eval(checks[0], results));
      if s.status.Completed? {
        RunAllShift(checks, eval, issues, results, k);
        assert checks[1..][..k - 1] == checks[1..][..k - 1];
        RunAllStopsOnFailure(checks[1..], eval, s.issues, s.results, k - 1);
      } else {
        assert checks[..k][0] == checks[0];
      }
    }
  }

  /** No check can both return True and add no issue while the run still completes normally. */
  lemma {:induction false} CompletedRunHasNoSilentStop<R, I>(checks: seq<R>, eval: (R, Results) -> CheckOutcome<I>,
                                                             issues: seq<I>, results: Results, j: nat)
    requires j < |checks|
    requires RunAll(checks, eval, issues, results).status.Completed?
    ensures var before := RunAll(checks[..j], eval, issues, results);
      var out := eval(checks[j], before.results);
      before.status.Completed? && out.Returned? && !(out.shouldStop && out.appended == [])
  {
    var s := Apply(Run(issues, results, Completed), checks[0], eval(checks[0], results));
    assert checks[..0] == [];
    if j > 0 {
      RunAllShift(checks, eval, issues, results, j);
      assert checks[j] == checks[1..][j - 1];
      CompletedRunHasNoSilentStop(checks[1..], eval, s.issues, s.results, j - 1);
    }
  }

  /** When no check ever returns True, the driver's stop assertion can never fail. */
  lemma {:induction false} NoStopFlagNoSilentStop<R, I>(checks: seq<R>, eval: (R, Results) -> CheckOutcome<I>,
                                                        rule: HaltRule, issues: seq<I>, results: Results)
    requires forall c, res | c in checks :: eval(c, res).Returned? ==> !eval(c, res).shouldStop
    ensures !Drive(checks, eval, rule, issues, results).status.StoppedWithoutIssue?
    decreases |checks|
  {
    if checks != [] {
      var out := eval(checks[0], results);
      var s := Apply(Run(issues, results, Completed), checks[0], out);
      if s.status.Completed? && !Halts(rule, issues, out) {
        assert forall c | c in checks[1..] :: c in checks;
        NoStopFlagNoSilentStop(checks[1..], eval, rule, s.issues, s.results);
      }
    }
  }

  /** When no check sets an intermediate result, the driver leaves the results as they were. */
  lemma {:induction false} NoUpdatesKeepResults<R, I>(checks: seq<R>, eval: (R, Results) -> CheckOutcome<I>,
                                                      rule: HaltRule, issues: seq<I>, results: Results)
    requires forall c, res | c in checks :: eval(c, res).Returned? ==> eval(c, res).updates == map[]
    ensures Drive(checks, eval, rule, issues, results).results == results
    decreases |checks|
  {
    if checks != [] {
      var out := eval(checks[0], results);
      var s := Apply(Run(issues, results, Completed), checks[0], out);
      if out.Returned? {
        assert s.results == results + map[] == results;
      }
      if s.status.Completed? && !Halts(rule, issues, out) {
        assert forall c | c in checks[1..] :: c in checks;
        NoUpdatesKeepResults(checks[1..], eval, rule, s.issues, s.results);
      }
    }
  }

  /** A property every check's reported issues have is had by every issue the driver loop collects. */
  lemma {:induction false} DriveIssuesSatisfy<R, I>(checks: seq<R>, eval: (R, Results) -> CheckOutcome<I>,
                                                    rule: HaltRule, issues: seq<I>, results: Results, P: I -> bool)
    requires forall i | i in issues :: P(i)
    requires forall c, res | c in checks && eval(c, res).Returned? :: forall i | i in eval(c, res).appended :: P(i)
    ensures forall i | i in Drive(checks, eval, rule, issues, results).issues :: P(i)
    decreases |checks|
  {
    if checks != [] {
      var out := eval(checks[0], results);
      var s := Apply(Run(issues, results, Completed), checks[0], out);
      if s.status.Completed? && !Halts(rule, issues, out) {
        assert checks[0] in checks;
        DriveIssuesSatisfy(checks[1..], eval, rule, s.issues, s.results, P);
      } else if out.Returned? {
        assert checks[0] in checks;
      }
    }
  }

  /** The check names of a choice-of-checks dictionary, in order. */
  function Keys<R>(choice: seq<(R, bool)>): (r: seq<R>)
    ensures |r| == |choice|
  {
    if choice == [] then [] else [choice[0].0] + Keys(choice[1..])
  }

  lemma {:induction false} KeysAt<R>(choice: seq<(R, bool)>)
    ensures forall k | 0 <= k < |choice| :: Keys(choice)[k] == choice[k].0
  {
    if choice != [] {
      KeysAt(choice[1..]);
    }
  }

  /** The enabled checks of a choice-of-checks dictionary, in order. */
  function Enabled<R>(choice: seq<(R, bool)>): (r: seq<R>)
    ensures |r| <= |choice|
  {
    if choice == [] then []
    else (if choice[0].1 then [choice[0].0] else []) + Enabled(choice[1..])
  }

  /** A check is enabled exactly when the dictionary maps it to True. */
  lemma {:induction false} EnabledIff<R>(choice: seq<(R, bool)>)
    ensures forall c | c in Enabled(choice) :: (c, true) in choice
    ensures forall k | 0 <= k < |choice| && choice[k].1 :: choice[k].0 in Enabled(choice)
  {
    if choice != [] {
      EnabledIff(choice[1..]);
      assert forall k | 1 <= k < |choice| :: choice[k] == choice[1..][k - 1];
    }
  }

  /** The first declared check method missing from `keys`, if any. */
  function FirstMissing<R(==)>(declared: seq<R>, keys: seq<R>): Option<R> {
    if declared == [] then None
    else if declared[0] !in keys then Some(declared[0])
    else FirstMissing(declared[1..], keys)
  }

  lemma {:induction false} FirstMissingSpec<R>(declared: seq<R>, keys: seq<R>)
    ensures FirstMissing(declared, keys).None? <==> forall c | c in declared :: c in keys
    ensures FirstMissing(declared, keys).Some? ==>
      FirstMissing(declared, keys).value in declared && FirstMissing(declared, keys).value !in keys
  {
    if declared != [] && declared[0] in keys {
      FirstMissingSpec(declared[1..], keys);
      assert forall c | c in declared :: c == declared[0] || c in declared[1..];
    }
  }

  /**
   * The checks a checker runs. Without a choice of checks, every declared
   * check method runs; with one, every declared check method must be a key
   * of it (otherwise the assertion fails, naming the first missing one), and
   * exactly the checks it enables run, in its order.
   */
  function ChecksToRun<R(==)>(choice: Option<seq<(R, bool)>>, declared: seq<R>): (r: Result<seq<R>, R>)
    ensures choice.None? ==> r == Success(declared)
  {
    match choice
    case None => Success(declared)
    case Some(c) =>
      match FirstMissing(declared, Keys(c))
      case Some(m) => Failure(m)
      case None => Success(Enabled(c))
  }

  lemma ChecksToRunSpec<R>(choice: Option<seq<(R, bool)>>, declared: seq<R>)
    ensures var r := ChecksToRun(choice, declared);
      && (choice.Some? ==> (r.Success? <==> forall c | c in declared :: c in Keys(choice.value)))
      && (choice.Some? && r.Success? ==> r.value == Enabled(choice.value))
      && (r.Failure? ==> choice.Some? && r.error in declared && r.error !in Keys(choice.value))
  {
    if choice.Some? {
      FirstMissingSpec(declared, Keys(choice.value));
    }
  }

  /** What `run_checks` of a checker computes, from its issue list and intermediate results. */
  function RunChecksSpec<R(==), I>(choice: Option<seq<(R, bool)>>, declared: seq<R>, stopAfterFirstIssue: bool,
                                   eval: (R, Results) -> CheckOutcome<I>,
                                   issues: seq<I>, results: Results): (r: Run<R, I>)
    ensures issues <= r.issues
    ensures ChecksToRun(choice, declared).Failure? ==>
      r == Run(issues, results, MissingCheckMethod(ChecksToRun(choice, declared).error))
  {
    match ChecksToRun(choice, declared)
    case Failure(c) => Run(issues, results, MissingCheckMethod(c))
    case Success(checks) => Drive(checks, eval, AfterAnyIssue(stopAfterFirstIssue), issues, results)
  }

  /** A checker with its issue list and intermediate results. */
  class BaseChecker<R(==), I> {
    const choiceOfChecks: Option<seq<(R, bool)>>
    const checkMethods: seq<R>
    const stopAfterFirstIssue: bool
    var issues: seq<I>
    var intermediateResults: Results

    constructor (choiceOfChecks: Option<seq<(R, bool)>>, checkMethods: seq<R>, stopAfterFirstIssue: bool,
                 intermediateResults: Results)
      ensures this.choiceOfChecks == choiceOfChecks && this.checkMethods == checkMethods
      ensures this.stopAfterFirstIssue == stopAfterFirstIssue
      ensures issues == [] && this.intermediateResults == intermediateResults
    {
      this.choiceOfChecks := choiceOfChecks;
      this.checkMethods := checkMethods;
      this.stopAfterFirstIssue := stopAfterFirstIssue;
      issues := [];
      this.intermediateResults := intermediateResults;
    }

    /** `_run_checks`: the driver loop, with its two assertions. */
    method RunChecks(eval: (R, Results) -> CheckOutcome<I>) returns (status: Status<R>)
      modifies this
      ensures Run(issues, intermediateResults, status)
        == RunChecksSpec(choiceOfChecks, checkMethods, stopAfterFirstIssue, eval,
                         old(issues), old(intermediateResults))
    {
      var checks: seq<R>;
      match ChecksToRun(choiceOfChecks, checkMethods) {
        case Failure(c) =>
          return MissingCheckMethod(c);
        case Success(cs) =>
          checks := cs;
      }
      ghost var rule := AfterAnyIssue(stopAfterFirstIssue);
      ghost var goal := Drive(checks, eval, rule, issues, intermediateResults);
      var i := 0;
      while i < |checks|
        invariant 0 <= i <= |checks|
        invariant Drive(checks[i..], eval, rule, issues, intermediateResults) == goal
        decreases |checks| - i
      {
        assert checks[i..][0] == checks[i] && checks[i..][1..] == checks[i + 1..];
        var numIssuesBefore := |issues|;
        var before := issues;
        var out := eval(checks[i], intermediateResults);
        match out {
          case Raised(e) =>
            return CheckRaised(checks[i], e);
          case Returned(appended, shouldStop, updates) =>
            issues := issues + appended;
            intermediateResults := intermediateResults + updates;
            var numCreatedIssues := |issues| - numIssuesBefore;
            if shouldStop && numCreatedIssues == 0 {
              return StoppedWithoutIssue(checks[i]);
            }
            if issues != [] && (stopAfterFirstIssue || shouldStop) {
              assert Halts(rule, before, out);
              return Completed;
            }
        }
        i := i + 1;
      }
      return Completed;
    }
  }

  /** A member of a chain: the checker to create, with its own defaults, and what its checks do. */
  datatype Member<!R, I> = Member(
    choiceOfChecks: Option<seq<(R, bool)>>,
    checkMethods: seq<R>,
    stopAfterFirstIssue: bool,
    initialResults: Results,
    eval: (R, Results) -> CheckOutcome<I>)

  /**
   * Running one member of a chain as a step: it starts with no issues and
   * with its own initial results updated by the chain's results; a failure
   * inside it escapes as the exception it raised (an `AssertionError` for
   * the driver's assertions).
   */
  function MemberOutcome<R(==), I>(m: Member<R, I>, chainResults: Results): (out: CheckOutcome<I>)
    ensures var r := RunChecksSpec(m.choiceOfChecks, m.checkMethods, m.stopAfterFirstIssue, m.eval,
                                   [], m.initialResults + chainResults);
      && (out.Returned? <==> r.status.Completed?)
      && (out.Returned? ==> out.appended == r.issues && out.updates == r.results && !out.shouldStop)
      && (r.status.CheckRaised? ==> out == Raised(r.status.error))
  {
    var r := RunChecksSpec(m.choiceOfChecks, m.checkMethods, m.stopAfterFirstIssue, m.eval,
                           [], m.initialResults + chainResults);
    match r.status
    case Completed => Returned(r.issues, false, r.results)
    case CheckRaised(_, e) => Raised(e)
    case StoppedWithoutIssue(_) => Raised(AssertionError)
    case MissingCheckMethod(_) => Raised(AssertionError)
  }

  /** What a chain's `_run_checks` computes. */
  function ChainSpec<R(==), I>(members: seq<Member<R, I>>, stopAfterFirstIssue: bool,
                               issues: seq<I>, results: Results): Run<Member<R, I>, I>
  {
    Drive(members, (m, res) => MemberOutcome(m, res), AfterReportingMember(stopAfterFirstIssue), issues, results)
  }

  /** One step of a chain: what running its first member, as a checker, makes of the rest. */
  lemma ChainSpecStep<R, I>(members: seq<Member<R, I>>, stopAfterFirstIssue: bool, issues: seq<I>, results: Results,
                                r: Run<R, I>)
    requires members != []
    requires r == RunChecksSpec(members[0].choiceOfChecks, members[0].checkMethods, members[0].stopAfterFirstIssue,
                                members[0].eval, [], members[0].initialResults + results)
    ensures var d := ChainSpec(members, stopAfterFirstIssue, issues, results);
      && (r.status.CheckRaised? ==> d == Run(issues, results, CheckRaised(members[0], r.status.error)))
      && (r.status.StoppedWithoutIssue? || r.status.MissingCheckMethod? ==>
            d == Run(issues, results, CheckRaised(members[0], AssertionError)))
      && (r.status.Completed? && r.issues != [] && stopAfterFirstIssue ==>
            d == Run(issues + r.issues, results + r.results, Completed))
      && (r.status.Completed? && !(r.issues != [] && stopAfterFirstIssue) ==>
            d == ChainSpec(members[1..], stopAfterFirstIssue, issues + r.issues, results + r.results))
  {
    var eval := (m, res) => MemberOutcome(m, res);
    assert eval(members[0], results) == MemberOutcome(members[0], results);
  }

  /** The member the chain runs at position `j`, with the results the chain holds before it. */
  function MemberOutcomeAt<R(==), I>(members: seq<Member<R, I>>, issues: seq<I>, results: Results, j: nat): CheckOutcome<I>
    requires j < |members|
  {
    var eval := (m, res) => MemberOutcome(m, res);
    MemberOutcome(members[j], RunAll(members[..j], eval, issues, results).results)
  }

  /**
   * A chain that stops after the first issue runs its members in order until
   * one of them reports an issue: every member before the last one it ran
   * completed without reporting anything, and when it stops before the end
   * of the list, the last member it ran reported at least one issue.
   */
  lemma ChainCutsAfterFirstReporter<R, I>(members: seq<Member<R, I>>, issues: seq<I>, results: Results)
    ensures
      var eval := (m, res) => MemberOutcome(m, res);
      var rule := AfterReportingMember(true);
      var k := Executed(members, eval, rule, issues, results);
      var r := ChainSpec(members, true, issues, results);
      && r == RunAll(members[..k], eval, issues, results)
      && (forall j | 0 <= j && j + 1 < k ::
            var out := MemberOutcomeAt(members, issues, results, j); out.Returned? && out.appended == [])
      && (k < |members| && r.status.Completed? ==>
            k >= 1 && MemberOutcomeAt(members, issues, results, k - 1).Returned?
            && MemberOutcomeAt(members, issues, results, k - 1).appended != [])
  {
    var eval := (m, res) => MemberOutcome(m, res);
    var rule := AfterReportingMember(true);
    DriveRunsPrefix(members, eval, rule, issues, results);
    var k := Executed(members, eval, rule, issues, results);
    forall j | 0 <= j && j + 1 < k
      ensures var out := MemberOutcomeAt(members, issues, results, j); out.Returned? && out.appended == []
    {
      assert !HaltsAfter(members, eval, rule, issues, results, j);
      var before := RunAll(members[..j], eval, issues, results);
      assert (members[..j + 1])[..j] == members[..j];
      RunAllPrefixStep(members, eval, issues, results, j);
      assert RunAll(members[..j + 1], eval, issues, results).status.Completed?;
    }
  }

  /**
   * The issues of a chain that stops after the first issue, started with no
   * issues, all come from one member: the last one it ran.
   */
  lemma {:induction false} ChainIssuesFromOneMember<R, I>(members: seq<Member<R, I>>, results: Results)
    ensures
      var eval := (m, res) => MemberOutcome(m, res);
      var k := Executed(members, eval, AfterReportingMember(true), [], results);
      var r := ChainSpec(members, true, [], results);
      r.issues != [] ==>
        k >= 1 && MemberOutcomeAt(members, [], results, k - 1).Returned?
        && r.issues == MemberOutcomeAt(members, [], results, k - 1).appended
    decreases |members|
  {
    var eval := (m, res) => MemberOutcome(m, res);
    var rule := AfterReportingMember(true);
    if members != [] {
      var out := eval(members[0], results);
      var s := Apply(Run([], results, Completed), members[0], out);
      assert members[..0] == [];
      if s.status.Completed? && !Halts(rule, [], out) {
        assert out.appended == [] && s.issues == [];
        var tail := members[1..];
        ChainIssuesFromOneMember(tail, s.results);
        var k := Executed(members, eval, rule, [], results);
        var k' := Executed(tail, eval, rule, [], s.results);
        if ChainSpec(members, true, [], results).issues != [] {
          assert k == k' + 1 && k' >= 1;
          RunAllShift(members, eval, [], results, k - 1);
          assert members[k - 1] == tail[k' - 1];
        }
      }
    }
  }

  /** A chain that stops after the first issue and whose first member reports issues ends with that member. */
  lemma FirstMemberReports<R, I>(members: seq<Member<R, I>>, results: Results)
    ensures members != [] ==>
      var out := MemberOutcome(members[0], results);
      out.Returned? && out.appended != [] ==>
      ChainSpec(members, true, [], results) == Run(out.appended, results + out.updates, Completed)
  {
    if members != [] {
      var eval := (m, res) => MemberOutcome(m, res);
      var out := MemberOutcome(members[0], results);
      assert eval(members[0], results) == out;
      if out.Returned? {
        assert [] + out.appended == out.appended;
      }
    }
  }

  /** Running one more check after a completed prefix. */
  lemma {:induction false} RunAllPrefixStep<R, I>(checks: seq<R>, eval: (R, Results) -> CheckOutcome<I>,
                                                  issues: seq<I>, results: Results, j: nat)
    requires j < |checks|
    requires RunAll(checks[..j], eval, issues, results).status.Completed?
    ensures var before := RunAll(checks[..j], eval, issues, results);
      RunAll(checks[..j + 1], eval, issues, results) == Apply(before, checks[j], eval(checks[j], before.results))
  {
    var s := Apply(Run(issues, results, Completed), checks[0], eval(checks[0], results));
    if j == 0 {
      assert checks[..0] == [];
      assert checks[..1][1..] == [];
    } else {
      RunAllShift(checks, eval, issues, results, j);
      RunAllShift(checks, eval, issues, results, j + 1);
      assert checks[1..][..j - 1 + 1] == checks[1..][..j];
      assert checks[j] == checks[1..][j - 1];
      RunAllPrefixStep(checks[1..], eval, s.issues, s.results, j - 1);
    }
  }

  /**
   * A run of the first `j` checks that completed ran the first `j - 1` to
   * completion and then one more check that returned normally, merging its
   * updates into the results.
   */
  lemma RunAllLastStep<R, I>(checks: seq<R>, eval: (R, Results) -> CheckOutcome<I>,
                             issues: seq<I>, results: Results, j: nat)
    requires 1 <= j <= |checks|
    ensures var r := RunAll(checks[..j], eval, issues, results);
      var before := RunAll(checks[..j - 1], eval, issues, results);
      r.status.Completed? ==>
        && before.status.Completed?
        && eval(checks[j - 1], before.results).Returned?
        && r.results == before.results + eval(checks[j - 1], before.results).updates
  {
    var before := RunAll(checks[..j - 1], eval, issues, results);
    assert (checks[..j])[..j - 1] == checks[..j - 1];
    if !before.status.Completed? {
      RunAllStopsOnFailure(checks[..j], eval, issues, results, j - 1);
    } else {
      RunAllPrefixStep(checks, eval, issues, results, j - 1);
    }
  }

  /** Running no checks changes nothing. */
  lemma RunAllNone<R, I>(checks: seq<R>, eval: (R, Results) -> CheckOutcome<I>, issues: seq<I>, results: Results)
    ensures RunAll(checks[..0], eval, issues, results) == Run(issues, results, Completed)
  {
    assert checks[..0] == [];
  }

  /** The results after `j` steps, each step `k` computing the next results from the current ones. */
  function StepsFrom(step: (nat, Results) -> Results, j: nat, results: Results): Results
    decreases j
  {
    if j == 0 then results else step(j - 1, StepsFrom(step, j - 1, results))
  }

  /**
   * When every check that returns hands back what `step` says, the first `j`
   * checks, run to completion, leave the results `step` computes over them.
   */
  lemma {:induction false} RunAllFollowsSteps<R, I>(checks: seq<R>, eval: (R, Results) -> CheckOutcome<I>,
                                                   issues: seq<I>, results: Results, step: (nat, Results) -> Results, j: nat)
    requires j <= |checks|
    requires forall k, res | 0 <= k < |checks| && eval(checks[k], res).Returned? ::
      res + eval(checks[k], res).updates == step(k, res)
    requires RunAll(checks[..j], eval, issues, results).status.Completed?
    ensures RunAll(checks[..j], eval, issues, results).results == StepsFrom(step, j, results)
    decreases j
  {
    if j == 0 {
      RunAllNone(checks, eval, issues, results);
    } else {
      RunAllLastStep(checks, eval, issues, results, j);
      RunAllFollowsSteps(checks, eval, issues, results, step, j - 1);
    }
  }

  /** A chain of checkers with its issue list and intermediate results. */
  class ChainChecker<R(==), I> {
    const checkers: seq<Member<R, I>>
    const stopAfterFirstIssue: bool
    var issues: seq<I>
    var intermediateResults: Results

    constructor (checkers: seq<Member<R, I>>, stopAfterFirstIssue: bool)
      ensures this.checkers == checkers && this.stopAfterFirstIssue == stopAfterFirstIssue
      ensures issues == [] && intermediateResults == map[]
    {
      this.checkers := checkers;
      this.stopAfterFirstIssue := stopAfterFirstIssue;
      issues := [];
      intermediateResults := map[];
    }

    /** The chain's `_run_checks`: each member gets the chain's results, runs, and hands back its issues and results. */
    method RunChecks() returns (status: Status<Member<R, I>>)
      modifies this
      ensures Run(issues, intermediateResults, status)
        == ChainSpec(checkers, stopAfterFirstIssue, old(issues), old(intermediateResults))
    {
      ghost var goal := ChainSpec(checkers, stopAfterFirstIssue, issues, intermediateResults);
      var i := 0;
      while i < |checkers|
        invariant 0 <= i <= |checkers|
        invariant ChainSpec(checkers[i..], stopAfterFirstIssue, issues, intermediateResults) == goal
        decreases |checkers| - i
      {
        assert checkers[i..][0] == checkers[i] && checkers[i..][1..] == checkers[i + 1..];
        var m := checkers[i];
        var checker := new BaseChecker(m.choiceOfChecks, m.checkMethods, m.stopAfterFirstIssue,
                                       m.initialResults + intermediateResults);
        var memberStatus := checker.RunChecks(m.eval);
        var memberIssues, memberResults := checker.issues, checker.intermediateResults;
        ChainSpecStep(checkers[i..], stopAfterFirstIssue, issues, intermediateResults,
                      Run(memberIssues, memberResults, memberStatus));
        match memberStatus {
          case Completed =>
          case CheckRaised(_, e) =>
            return CheckRaised(m, e);
          case StoppedWithoutIssue(_) =>
            return CheckRaised(m, AssertionError);
          case MissingCheckMethod(_) =>
            return CheckRaised(m, AssertionError);
        }
        issues := issues + memberIssues;
        intermediateResults := intermediateResults + memberResults;
        if memberIssues != [] && stopAfterFirstIssue {
          return Completed;
        }
        i := i + 1;
      }
      return Completed;
    }
  }

  method CreateAndRunChainChecker<R(==), I>(members: seq<Member<R, I>>, stopAfterFirstIssue: bool)
    returns (issues: seq<I>, results: Results, status: Status<Member<R, I>>)
    ensures Run(issues, results, status) == ChainSpec(members, stopAfterFirstIssue, [], map[])
  {
    var chain := new ChainChecker(members, stopAfterFirstIssue);
    status := chain.RunChecks();
    issues := chain.issues;
    results := chain.intermediateResults;
  }
}
