/**
 * The four entry points that check a `to_latex` or `to_figure` call: each
 * runs a chain of checkers that stops after the first checker reporting
 * issues, and returns the issues or raises what a check raised.
 */
module DfChains {
  import opened Wrappers
  import opened DfModel
  import CheckerFramework
  import DfCheckers
  import DfCompilation
  import DfContent

  type ChainMember = CheckerFramework.Member<DfCheckers.RuleId, DfIssue>

  /** The analysis step's table chain: syntax, then content. */
  const TableAnalysis: seq<CheckerKind> := [TableSyntax, TableContent]
  /** The analysis step's figure chain. */
  const FigureAnalysis: seq<CheckerKind> := [FigureSyntax, FigureContent]
  /** The display-item step's table chain. */
  const TableDisplayitems: seq<CheckerKind> :=
    [TableSyntax, TableContent, Continuity, SecondTable, TableCompilation, Annotation]
  /** The display-item step's figure chain. */
  const FigureDisplayitems: seq<CheckerKind> :=
    [FigureSyntax, FigureContent, Continuity, SecondFigure, FigureCompilation, Annotation]

  /** A chain checks the call with no prior frames. */
  function ChainCall(df: Frame, filename: string, kwargs: Kwargs): (c: DfCall)
    ensures c.df == df && c.filename == filename && c.kwargs == kwargs && c.priorDfs == []
  {
    DfCall(df, filename, kwargs, [])
  }

  /** The chain's members, one checker per kind. */
  function Members(kinds: seq<CheckerKind>, call: DfCall, env: Env): (r: seq<ChainMember>)
    ensures |r| == |kinds| && forall j | 0 <= j < |kinds| :: r[j] == DfCheckers.MemberFor(kinds[j], call, env)
  {
    seq(|kinds|, j requires 0 <= j < |kinds| => DfCheckers.MemberFor(kinds[j], call, env))
  }

  /** The chain's run, stopping after the first member that reports issues. */
  function ChainRun(kinds: seq<CheckerKind>, call: DfCall, env: Env): CheckerFramework.Run<ChainMember, DfIssue> {
    CheckerFramework.ChainSpec(Members(kinds, call, env), true, [], map[])
  }

  /**
   * What `create_and_run_chain_checker(...)[0]` gives its caller: the issues,
   * or the exception a member raised.
   */
  function ChainIssues(kinds: seq<CheckerKind>, call: DfCall, env: Env): (r: Result<seq<DfIssue>, CheckerFramework.PyError>)
    ensures r.Success? <==> ChainRun(kinds, call, env).status.Completed?
    ensures r.Success? ==> r.value == ChainRun(kinds, call, env).issues
  {
    var run := ChainRun(kinds, call, env);
    match run.status
    case Completed => Success(run.issues)
    case CheckRaised(_, e) => Failure(e)
    case StoppedWithoutIssue(_) => Failure(CheckerFramework.AssertionError)
    case MissingCheckMethod(_) => Failure(CheckerFramework.AssertionError)
  }

  /** Create and run the chain of `kinds` on `call`, handing back its issues or what it raised. */
  method RunChain(kinds: seq<CheckerKind>, call: DfCall, env: Env) returns (r: Result<seq<DfIssue>, CheckerFramework.PyError>)
    ensures r == ChainIssues(kinds, call, env)
  {
    var issues, results, status := CheckerFramework.CreateAndRunChainChecker(Members(kinds, call, env), true);
    match status {
      case Completed => r := Success(issues);
      case CheckRaised(_, e) => r := Failure(e);
      case StoppedWithoutIssue(_) => r := Failure(CheckerFramework.AssertionError);
      case MissingCheckMethod(_) => r := Failure(CheckerFramework.AssertionError);
    }
  }

  /** `check_df_to_latex_analysis`. */
  method CheckDfToLatexAnalysis(df: Frame, filename: string, kwargs: Kwargs, env: Env)
    returns (r: Result<seq<DfIssue>, CheckerFramework.PyError>)
    ensures r == ChainIssues(TableAnalysis, ChainCall(df, filename, kwargs), env)
  {
    r := RunChain(TableAnalysis, ChainCall(df, filename, kwargs), env);
  }

  /** `check_df_to_figure_analysis`. */
  method CheckDfToFigureAnalysis(df: Frame, filename: string, kwargs: Kwargs, env: Env)
    returns (r: Result<seq<DfIssue>, CheckerFramework.PyError>)
    ensures r == ChainIssues(FigureAnalysis, ChainCall(df, filename, kwargs), env)
  {
    r := RunChain(FigureAnalysis, ChainCall(df, filename, kwargs), env);
  }

  /** `check_df_to_latex_displayitems`. */
  method CheckDfToLatexDisplayitems(df: Frame, filename: string, kwargs: Kwargs, env: Env)
    returns (r: Result<seq<DfIssue>, CheckerFramework.PyError>)
    ensures r == ChainIssues(TableDisplayitems, ChainCall(df, filename, kwargs), env)
  {
    r := RunChain(TableDisplayitems, ChainCall(df, filename, kwargs), env);
  }

  /** `check_df_to_figure_displayitems`. */
  method CheckDfToFigureDisplayitems(df: Frame, filename: string, kwargs: Kwargs, env: Env)
    returns (r: Result<seq<DfIssue>, CheckerFramework.PyError>)
    ensures r == ChainIssues(FigureDisplayitems, ChainCall(df, filename, kwargs), env)
  {
    r := RunChain(FigureDisplayitems, ChainCall(df, filename, kwargs), env);
  }

  // ---------------------------------------------------------------- properties of the chains

  /**
   * When the first checker of a chain reports issues, the later checkers do
   * not run: the chain's result is exactly those issues. For the four entry
   * points the first checker is the syntax checker.
   */
  lemma FirstReporterEndsChain(kinds: seq<CheckerKind>, call: DfCall, env: Env)
    requires kinds != []
    requires var first := DfCheckers.CheckerRun(kinds[0], call, env, InitialResults(kinds[0]));
      first.status.Completed? && first.issues != []
    ensures ChainIssues(kinds, call, env)
      == Success(DfCheckers.CheckerRun(kinds[0], call, env, InitialResults(kinds[0])).issues)
  {
    DfCheckers.MemberRunsChecker(kinds[0], call, env, map[]);
    assert InitialResults(kinds[0]) + map[] == InitialResults(kinds[0]);
    CheckerFramework.FirstMemberReports(Members(kinds, call, env), map[]);
  }

  /**
   * The issues a chain returns all come from one of its checkers: they are
   * about the call's file and carry that checker's code problem.
   */
  lemma ChainIssuesFromOneChecker(kinds: seq<CheckerKind>, call: DfCall, env: Env)
    requires ChainIssues(kinds, call, env).Success? && ChainIssues(kinds, call, env).value != []
    ensures exists k | k in kinds :: forall i | i in ChainIssues(kinds, call, env).value ::
      i.item == Some(call.filename) && i.codeProblem == Some(DefaultCodeProblem(k))
  {
    var members := Members(kinds, call, env);
    var eval := (m, res) => CheckerFramework.MemberOutcome(m, res);
    var rule := CheckerFramework.AfterReportingMember(true);
    CheckerFramework.ChainIssuesFromOneMember(members, map[]);
    var k := CheckerFramework.Executed(members, eval, rule, [], map[]);
    var before := CheckerFramework.RunAll(members[..k - 1], eval, [], map[]).results;
    var kind := kinds[k - 1];
    DfCheckers.CheckerIssuesCarryDefaults(kind, call, env, InitialResults(kind) + before);
    assert kind in kinds;
  }

  /** A chain has no prior frames, so the check of repeated values in prior frames reports nothing. */
  lemma ChainsIgnorePriorDfs(df: Frame, filename: string, kwargs: Kwargs)
    ensures DfContent.CheckDfForRepeatedValuesInPriorDfs(ChainCall(df, filename, kwargs)) == []
  {
  }

  /** The results a chain holds after a member of `kind` completes, given those it held before. */
  function StepResults(kind: CheckerKind, before: CheckerFramework.Results, env: Env): CheckerFramework.Results {
    before + DfCheckers.HandedBack(kind, before, env)
  }

  /** The intermediate results a chain holds after running its first `j` members to completion. */
  function ResultsAfter(kinds: seq<CheckerKind>, j: nat, env: Env): CheckerFramework.Results
    requires j <= |kinds|
    decreases j
  {
    if j == 0 then map[] else StepResults(kinds[j - 1], ResultsAfter(kinds, j - 1, env), env)
  }

  /** `StepResults` of the `k`-th kind, as a step of the framework's fold. */
  function ChainStep(kinds: seq<CheckerKind>, env: Env): (nat, CheckerFramework.Results) -> CheckerFramework.Results {
    (k: nat, res: CheckerFramework.Results) => if k < |kinds| then StepResults(kinds[k], res, env) else res
  }

  lemma {:induction false} ResultsAfterFolds(kinds: seq<CheckerKind>, env: Env, j: nat)
    requires j <= |kinds|
    ensures CheckerFramework.StepsFrom(ChainStep(kinds, env), j, map[]) == ResultsAfter(kinds, j, env)
    decreases j
  {
    if j > 0 {
      ResultsAfterFolds(kinds, env, j - 1);
    }
  }

  /** The chain's run of its first `j` members. */
  function PrefixRun(kinds: seq<CheckerKind>, call: DfCall, env: Env, j: nat): CheckerFramework.Run<ChainMember, DfIssue>
    requires j <= |kinds|
  {
    CheckerFramework.RunAll(Members(kinds, call, env)[..j], (m, res) => CheckerFramework.MemberOutcome(m, res), [], map[])
  }

  /** Every member that completes hands back `StepResults` of the results it was given. */
  lemma MembersHandBack(kinds: seq<CheckerKind>, call: DfCall, env: Env)
    ensures var members := Members(kinds, call, env);
      var eval := (m, res) => CheckerFramework.MemberOutcome(m, res);
      forall k, res | 0 <= k < |members| && eval(members[k], res).Returned? ::
        res + eval(members[k], res).updates == ChainStep(kinds, env)(k, res)
  {
    var members := Members(kinds, call, env);
    var eval := (m, res) => CheckerFramework.MemberOutcome(m, res);
    forall k, res | 0 <= k < |members| && eval(members[k], res).Returned?
      ensures res + eval(members[k], res).updates == ChainStep(kinds, env)(k, res)
    {
      MemberHandsBackAt(kinds, call, env, k, res);
    }
  }

  lemma MemberHandsBackAt(kinds: seq<CheckerKind>, call: DfCall, env: Env, k: nat, res: CheckerFramework.Results)
    requires k < |kinds|
    ensures var out := CheckerFramework.MemberOutcome(Members(kinds, call, env)[k], res);
      out.Returned? ==> res + out.updates == StepResults(kinds[k], res, env)
  {
    DfCheckers.MemberHandsBack(kinds[k], call, env, res);
  }

  /** A chain whose first `j` members completed holds `ResultsAfter` of them. */
  lemma ChainResults(kinds: seq<CheckerKind>, call: DfCall, env: Env, j: nat)
    requires j <= |kinds|
    requires PrefixRun(kinds, call, env, j).status.Completed?
    ensures PrefixRun(kinds, call, env, j).results == ResultsAfter(kinds, j, env)
  {
    MembersHandBack(kinds, call, env);
    CheckerFramework.RunAllFollowsSteps(Members(kinds, call, env), (m, res) => CheckerFramework.MemberOutcome(m, res),
                                        [], map[], ChainStep(kinds, env), j);
    ResultsAfterFolds(kinds, env, j);
  }

  /**
   * The annotation checker of the table display-item chain sees the width
   * the compilation checker recorded.
   */
  lemma AnnotationSeesTableWidth(call: DfCall, env: Env)
    requires PrefixRun(TableDisplayitems, call, env, 5).status.Completed?
    ensures PrefixRun(TableDisplayitems, call, env, 5).results
      == map["width" := DfCompilation.WidthValue(DfCompilation.TableWidth(env))]
  {
    ChainResults(TableDisplayitems, call, env, 5);
    TableResultsBeforeAnnotation(env);
  }

  lemma TableResultsBeforeAnnotation(env: Env)
    ensures ResultsAfter(TableDisplayitems, 5, env) == map["width" := DfCompilation.WidthValue(DfCompilation.TableWidth(env))]
  {
    assert ResultsAfter(TableDisplayitems, 4, env) == map[] by {
      assert ResultsAfter(TableDisplayitems, 2, env) == map[];
    }
  }

  /**
   * The figure chain's annotation checker sees `width` None: the figure
   * compilation checker runs no checks and hands on its initial results.
   */
  lemma AnnotationSeesNoFigureWidth(call: DfCall, env: Env)
    requires PrefixRun(FigureDisplayitems, call, env, 5).status.Completed?
    ensures PrefixRun(FigureDisplayitems, call, env, 5).results == map["width" := CheckerFramework.NoneValue]
  {
    ChainResults(FigureDisplayitems, call, env, 5);
    FigureResultsBeforeAnnotation(env);
  }

  lemma FigureResultsBeforeAnnotation(env: Env)
    ensures ResultsAfter(FigureDisplayitems, 5, env) == map["width" := CheckerFramework.NoneValue]
  {
    assert ResultsAfter(FigureDisplayitems, 4, env) == map[] by {
      assert ResultsAfter(FigureDisplayitems, 2, env) == map[];
    }
  }
}
