/**
 * The df checker classes as members of a chain: each kind's choice of
 * checks, its declared check methods (in `dir` order), and what each check
 * does when run on a call — its issues, completed with the class defaults,
 * the intermediate results it sets, or the exception it raises.
 */
module DfCheckers {
  import opened Wrappers
  import opened DfModel
  import CheckerFramework
  import DfSyntax
  import DfContent
  import DfCompilation
  import DfSecond
  import DfAnnotation
  import DfContinuity

  /** One constructor per `check_*` method. */
  datatype RuleId =
    | CheckFilename | CheckNoLabel | CheckThatIndexIsTrue | CheckColumnArgIsNotUsed
    | CheckKindArg | CheckYArg | CheckYerrArg | CheckThatSpecifiedColumnsExist
    | CheckDfForNanValues | CheckDfValueTypes | CheckDfHeadersType | CheckDfIndexIsARange | CheckDfSize
    | CheckDfIsAResultOfDescribe | CheckDfForRepeatedValues | CheckDfForRepeatedValuesInPriorDfs
    | CheckThatYValuesAreNumeric | CheckForPValuesInFigure | CheckForMaxNumberOfBars
    | CheckThatYValuesAreDiverse | CheckForNumericXForLineAndScatter
    | CheckCompilationAndGetWidth
    | CheckForRepetitiveValueInColumn | CheckLogScaleForOddsRatios
    | CheckForUnallowedCharactersInLabels | CheckForAbbreviationsNotInGlossary | CheckForGlossaryLabelsNotInDf
    | CheckNote | CheckCaption | CheckNoteIsDifferentThanCaption
    | CheckForFileContinuity

  /** The `CHOICE_OF_CHECKS` keys of each kind, in dictionary order (a merged dictionary keeps its left part first). */
  function ChecksOf(kind: CheckerKind): (r: seq<RuleId>)
    ensures CheckCompilationAndGetWidth in r <==> kind == TableCompilation
  {
    match kind
    case TableSyntax => [CheckFilename, CheckNoLabel, CheckThatIndexIsTrue, CheckColumnArgIsNotUsed]
    case FigureSyntax =>
      [CheckFilename, CheckNoLabel, CheckKindArg, CheckYArg, CheckYerrArg, CheckThatSpecifiedColumnsExist]
    case TableContent =>
      [CheckDfIsAResultOfDescribe, CheckDfForRepeatedValues, CheckDfForRepeatedValuesInPriorDfs,
       CheckDfForNanValues, CheckDfValueTypes, CheckDfHeadersType, CheckDfIndexIsARange, CheckDfSize]
    case FigureContent =>
      [CheckDfForNanValues, CheckDfValueTypes, CheckDfHeadersType, CheckDfIndexIsARange, CheckDfSize,
       CheckThatYValuesAreNumeric, CheckForPValuesInFigure, CheckForMaxNumberOfBars,
       CheckThatYValuesAreDiverse, CheckForNumericXForLineAndScatter]
    case TableCompilation => [CheckCompilationAndGetWidth]
    case FigureCompilation => []
    case SecondTable => [CheckForRepetitiveValueInColumn]
    case SecondFigure => [CheckLogScaleForOddsRatios]
    case Annotation =>
      [CheckForUnallowedCharactersInLabels, CheckForAbbreviationsNotInGlossary, CheckForGlossaryLabelsNotInDf,
       CheckNote, CheckCaption, CheckNoteIsDifferentThanCaption]
    case Continuity => [CheckForFileContinuity]
  }

  function AllEnabled(checks: seq<RuleId>): seq<(RuleId, bool)> {
    if checks == [] then [] else [(checks[0], true)] + AllEnabled(checks[1..])
  }

  /** A dictionary switching every check on has the checks as keys and enables them all, in order. */
  lemma {:induction false} AllEnabledKeys(checks: seq<RuleId>)
    ensures CheckerFramework.Keys(AllEnabled(checks)) == checks && CheckerFramework.Enabled(AllEnabled(checks)) == checks
  {
    if checks != [] {
      AllEnabledKeys(checks[1..]);
    }
  }

  /** `CHOICE_OF_CHECKS`: every check of every kind is switched on. */
  function Choice(kind: CheckerKind): seq<(RuleId, bool)> {
    AllEnabled(ChecksOf(kind))
  }

  /** The check methods `dir` finds on each kind, in alphabetical order of their names. */
  function Declared(kind: CheckerKind): seq<RuleId> {
    match kind
    case TableSyntax => [CheckColumnArgIsNotUsed, CheckFilename, CheckNoLabel, CheckThatIndexIsTrue]
    case FigureSyntax =>
      [CheckFilename, CheckKindArg, CheckNoLabel, CheckThatSpecifiedColumnsExist, CheckYArg, CheckYerrArg]
    case TableContent =>
      [CheckDfForNanValues, CheckDfForRepeatedValues, CheckDfForRepeatedValuesInPriorDfs, CheckDfHeadersType,
       CheckDfIndexIsARange, CheckDfIsAResultOfDescribe, CheckDfSize, CheckDfValueTypes]
    case FigureContent =>
      [CheckDfForNanValues, CheckDfHeadersType, CheckDfIndexIsARange, CheckDfSize, CheckDfValueTypes,
       CheckForMaxNumberOfBars, CheckForNumericXForLineAndScatter, CheckForPValuesInFigure,
       CheckThatYValuesAreDiverse, CheckThatYValuesAreNumeric]
    case TableCompilation => [CheckCompilationAndGetWidth]
    case FigureCompilation => []
    case SecondTable => [CheckForRepetitiveValueInColumn]
    case SecondFigure => [CheckLogScaleForOddsRatios]
    case Annotation =>
      [CheckCaption, CheckForAbbreviationsNotInGlossary, CheckForGlossaryLabelsNotInDf,
       CheckForUnallowedCharactersInLabels, CheckNote, CheckNoteIsDifferentThanCaption]
    case Continuity => [CheckForFileContinuity]
  }

  /** Every kind's choice of checks names all its check methods, so its checks run in the choice's order. */
  lemma ChoiceCoversDeclared(kind: CheckerKind)
    ensures CheckerFramework.ChecksToRun(Some(Choice(kind)), Declared(kind)) == Success(ChecksOf(kind))
  {
    AllEnabledKeys(ChecksOf(kind));
    CheckerFramework.ChecksToRunSpec(Some(Choice(kind)), Declared(kind));
    DeclaredAreChosen(kind);
  }

  lemma DeclaredAreChosen(kind: CheckerKind)
    ensures forall c | c in Declared(kind) :: c in ChecksOf(kind)
  {
    match kind
    case TableSyntax =>
    case FigureSyntax =>
    case TableContent =>
    case FigureContent =>
    case TableCompilation =>
    case FigureCompilation =>
    case SecondTable =>
    case SecondFigure =>
    case Annotation =>
    case Continuity =>
  }

  /** The checks that can raise an exception. */
  predicate MayRaise(rule: RuleId) {
    rule in {CheckThatYValuesAreNumeric, CheckForMaxNumberOfBars, CheckThatYValuesAreDiverse,
             CheckForNumericXForLineAndScatter, CheckCompilationAndGetWidth, CheckForRepetitiveValueInColumn,
             CheckForFileContinuity}
  }

  /** A check that returned: the issues it appended, completed with the kind's defaults. */
  function Report(kind: CheckerKind, call: DfCall, raws: seq<Raw>): (out: CheckerFramework.CheckOutcome<DfIssue>)
    ensures out.Returned? && !out.shouldStop && out.updates == map[]
    ensures forall i | i in out.appended :: i.item == Some(call.filename) && i.codeProblem == Some(DefaultCodeProblem(kind))
  {
    CheckerFramework.Returned(AllWithDefaults(kind, call.filename, raws), false, map[])
  }

  function ReportOrRaise(kind: CheckerKind, call: DfCall, r: Result<seq<Raw>, CheckerFramework.PyError>)
    : (out: CheckerFramework.CheckOutcome<DfIssue>)
    ensures out.Returned? ==> !out.shouldStop && out.updates == map[]
    ensures out.Returned? ==>
      forall i | i in out.appended :: i.item == Some(call.filename) && i.codeProblem == Some(DefaultCodeProblem(kind))
    ensures out.Raised? <==> r.Failure?
  {
    match r
    case Success(raws) => Report(kind, call, raws)
    case Failure(e) => CheckerFramework.Raised(e)
  }

  /**
   * Running check `rule` of a checker of `kind` on `call`, with the checker's
   * current intermediate results. No check returns True; only the
   * compilation check sets an intermediate result (`width`); every issue is
   * about the call's file and carries the kind's code problem.
   */
  function RuleOutcome(call: DfCall, env: Env, kind: CheckerKind, rule: RuleId, results: CheckerFramework.Results)
    : (out: CheckerFramework.CheckOutcome<DfIssue>)
    ensures out.Returned? ==> !out.shouldStop
    ensures out.Returned? ==>
      forall i | i in out.appended :: i.item == Some(call.filename) && i.codeProblem == Some(DefaultCodeProblem(kind))
    ensures out.Returned? && rule != CheckCompilationAndGetWidth ==> out.updates == map[]
    ensures out.Returned? && rule == CheckCompilationAndGetWidth ==>
      out.updates == map["width" := DfCompilation.WidthValue(DfCompilation.TableWidth(env))]
    ensures out.Raised? ==> MayRaise(rule)
  {
    var df, kw := call.df, call.kwargs;
    match rule
    case CheckFilename => Report(kind, call, DfSyntax.CheckFilename(call.filename))
    case CheckNoLabel => Report(kind, call, DfSyntax.CheckNoLabel(kw))
    case CheckThatIndexIsTrue => Report(kind, call, DfSyntax.CheckThatIndexIsTrue(kind, kw))
    case CheckColumnArgIsNotUsed => Report(kind, call, DfSyntax.CheckColumnArgIsNotUsed(kw))
    case CheckKindArg => Report(kind, call, DfSyntax.CheckKindArg(kw, env.allowedPlotKinds))
    case CheckYArg => Report(kind, call, DfSyntax.CheckYArg(kw))
    case CheckYerrArg => Report(kind, call, DfSyntax.CheckYerrArg(kw))
    case CheckThatSpecifiedColumnsExist => Report(kind, call, DfSyntax.CheckThatSpecifiedColumnsExist(df, kw))
    case CheckDfForNanValues => Report(kind, call, DfContent.CheckDfForNanValues(df))
    case CheckDfValueTypes => Report(kind, call, DfContent.CheckDfValueTypes(df))
    case CheckDfHeadersType => Report(kind, call, DfContent.CheckDfHeadersType(kind, df))
    case CheckDfIndexIsARange => Report(kind, call, DfContent.CheckDfIndexIsARange(kind, call))
    case CheckDfSize => Report(kind, call, DfContent.CheckDfSize(kind, call, env))
    case CheckDfIsAResultOfDescribe => Report(kind, call, DfContent.CheckDfIsAResultOfDescribe(df))
    case CheckDfForRepeatedValues => Report(kind, call, DfContent.CheckDfForRepeatedValues(df))
    case CheckDfForRepeatedValuesInPriorDfs => Report(kind, call, DfContent.CheckDfForRepeatedValuesInPriorDfs(call))
    case CheckThatYValuesAreNumeric => ReportOrRaise(kind, call, DfContent.CheckThatYValuesAreNumeric(df, kw))
    case CheckForPValuesInFigure => Report(kind, call, DfContent.CheckForPValuesInFigure(df, kw))
    case CheckForMaxNumberOfBars => ReportOrRaise(kind, call, DfContent.CheckForMaxNumberOfBars(df, kw, env.maxBars))
    case CheckThatYValuesAreDiverse => ReportOrRaise(kind, call, DfContent.CheckThatYValuesAreDiverse(df, kw))
    case CheckForNumericXForLineAndScatter => ReportOrRaise(kind, call, DfContent.CheckForNumericXForLineAndScatter(df, kw))
    case CheckCompilationAndGetWidth =>
      (match DfCompilation.CheckCompilationAndGetWidth(call, env)
       case Failure(e) => CheckerFramework.Raised(e)
       case Success(p) => CheckerFramework.Returned(AllWithDefaults(kind, call.filename, p.1), false, map["width" := p.0]))
    case CheckForRepetitiveValueInColumn => ReportOrRaise(kind, call, DfSecond.CheckForRepetitiveValueInColumn(df))
    case CheckLogScaleForOddsRatios => Report(kind, call, DfSecond.CheckLogScaleForOddsRatios(kw))
    case CheckForUnallowedCharactersInLabels => Report(kind, call, DfAnnotation.CheckForUnallowedCharactersInLabels(df))
    case CheckForAbbreviationsNotInGlossary =>
      Report(kind, call, DfAnnotation.CheckForAbbreviationsNotInGlossary(df, kw, env, results))
    case CheckForGlossaryLabelsNotInDf => Report(kind, call, DfAnnotation.CheckForGlossaryLabelsNotInDf(df, kw))
    case CheckNote => Report(kind, call, DfAnnotation.CheckNote(kw))
    case CheckCaption => Report(kind, call, DfAnnotation.CheckCaption(kw))
    case CheckNoteIsDifferentThanCaption => Report(kind, call, DfAnnotation.CheckNoteIsDifferentThanCaption(kw))
    case CheckForFileContinuity => ReportOrRaise(kind, call, DfContinuity.CheckForFileContinuity(call))
  }

  /** The checker of `kind` created for `call`, as a chain member. */
  function MemberFor(kind: CheckerKind, call: DfCall, env: Env): (m: CheckerFramework.Member<RuleId, DfIssue>)
    ensures m.choiceOfChecks == Some(Choice(kind)) && m.checkMethods == Declared(kind)
    ensures m.stopAfterFirstIssue == StopAfterFirstIssue(kind) && m.initialResults == InitialResults(kind)
  {
    CheckerFramework.Member(Some(Choice(kind)), Declared(kind), StopAfterFirstIssue(kind), InitialResults(kind),
                            (rule, res) => RuleOutcome(call, env, kind, rule, res))
  }

  /** What a checker of `kind` computes when run with the given intermediate results. */
  function CheckerRun(kind: CheckerKind, call: DfCall, env: Env, results: CheckerFramework.Results)
    : CheckerFramework.Run<RuleId, DfIssue>
  {
    var m := MemberFor(kind, call, env);
    CheckerFramework.RunChecksSpec(m.choiceOfChecks, m.checkMethods, m.stopAfterFirstIssue, m.eval, [], results)
  }

  /** The checker of `kind` runs exactly its choice of checks through the driver loop. */
  lemma CheckerRunDrives(kind: CheckerKind, call: DfCall, env: Env, results: CheckerFramework.Results)
    ensures var m := MemberFor(kind, call, env);
      CheckerRun(kind, call, env, results)
        == CheckerFramework.Drive(ChecksOf(kind), m.eval, CheckerFramework.AfterAnyIssue(StopAfterFirstIssue(kind)), [], results)
  {
    ChoiceCoversDeclared(kind);
  }

  /** A df checker never fails one of the driver's assertions: it completes, or a check raised. */
  lemma CheckerAssertionsHold(kind: CheckerKind, call: DfCall, env: Env, results: CheckerFramework.Results)
    ensures CheckerRun(kind, call, env, results).status.Completed? || CheckerRun(kind, call, env, results).status.CheckRaised?
  {
    var m := MemberFor(kind, call, env);
    var rule := CheckerFramework.AfterAnyIssue(StopAfterFirstIssue(kind));
    CheckerRunDrives(kind, call, env, results);
    forall c, res | c in ChecksOf(kind)
      ensures m.eval(c, res).Returned? ==> !m.eval(c, res).shouldStop
    {
      var out := RuleOutcome(call, env, kind, c, res);
      assert m.eval(c, res) == out;
    }
    CheckerFramework.NoStopFlagNoSilentStop(ChecksOf(kind), m.eval, rule, [], results);
  }

  /** Every checker except the table compilation checker leaves the intermediate results as it got them. */
  lemma CheckerKeepsResults(kind: CheckerKind, call: DfCall, env: Env, results: CheckerFramework.Results)
    requires kind != TableCompilation
    ensures CheckerRun(kind, call, env, results).results == results
  {
    var m := MemberFor(kind, call, env);
    var rule := CheckerFramework.AfterAnyIssue(StopAfterFirstIssue(kind));
    CheckerRunDrives(kind, call, env, results);
    forall c, res | c in ChecksOf(kind)
      ensures m.eval(c, res).Returned? ==> m.eval(c, res).updates == map[]
    {
      var out := RuleOutcome(call, env, kind, c, res);
      assert m.eval(c, res) == out;
    }
    CheckerFramework.NoUpdatesKeepResults(ChecksOf(kind), m.eval, rule, [], results);
  }

  /** Every issue a checker of `kind` reports is about the call's file and carries the kind's code problem. */
  lemma CheckerIssuesCarryDefaults(kind: CheckerKind, call: DfCall, env: Env, results: CheckerFramework.Results)
    ensures forall i | i in CheckerRun(kind, call, env, results).issues ::
      i.item == Some(call.filename) && i.codeProblem == Some(DefaultCodeProblem(kind))
  {
    var m := MemberFor(kind, call, env);
    var rule := CheckerFramework.AfterAnyIssue(StopAfterFirstIssue(kind));
    var P := (i: DfIssue) => i.item == Some(call.filename) && i.codeProblem == Some(DefaultCodeProblem(kind));
    CheckerRunDrives(kind, call, env, results);
    forall c, res | c in ChecksOf(kind) && m.eval(c, res).Returned?
      ensures forall i | i in m.eval(c, res).appended :: P(i)
    {
      var out := RuleOutcome(call, env, kind, c, res);
      assert m.eval(c, res) == out;
    }
    CheckerFramework.DriveIssuesSatisfy(ChecksOf(kind), m.eval, rule, [], results, P);
  }

  /** A table compilation checker that completes records the compiled width under `width`. */
  lemma CompilationSetsWidth(call: DfCall, env: Env, results: CheckerFramework.Results)
    requires CheckerRun(TableCompilation, call, env, results).status.Completed?
    ensures CheckerRun(TableCompilation, call, env, results).results
      == results["width" := DfCompilation.WidthValue(DfCompilation.TableWidth(env))]
  {
    var m := MemberFor(TableCompilation, call, env);
    CheckerRunDrives(TableCompilation, call, env, results);
    var checks := ChecksOf(TableCompilation);
    assert checks == [CheckCompilationAndGetWidth] && checks[1..] == [];
    var out := RuleOutcome(call, env, TableCompilation, CheckCompilationAndGetWidth, results);
    assert m.eval(CheckCompilationAndGetWidth, results) == out;
  }

  /** The checker of `kind` as a chain member does what the checker computes from the chain's results. */
  lemma MemberRunsChecker(kind: CheckerKind, call: DfCall, env: Env, chainResults: CheckerFramework.Results)
    ensures var out := CheckerFramework.MemberOutcome(MemberFor(kind, call, env), chainResults);
      var r := CheckerRun(kind, call, env, InitialResults(kind) + chainResults);
      && (out.Returned? <==> r.status.Completed?)
      && (out.Returned? ==> out.appended == r.issues && out.updates == r.results)
  {
    var m := MemberFor(kind, call, env);
    var out := CheckerFramework.MemberOutcome(m, chainResults);
  }

  /**
   * The results a completed checker of `kind` hands back to its chain: its
   * own initial results merged with the chain's, plus `width` for the table
   * compilation checker.
   */
  function HandedBack(kind: CheckerKind, chainResults: CheckerFramework.Results, env: Env): CheckerFramework.Results {
    var start := InitialResults(kind) + chainResults;
    if kind == TableCompilation then start["width" := DfCompilation.WidthValue(DfCompilation.TableWidth(env))]
    else start
  }

  lemma MemberHandsBack(kind: CheckerKind, call: DfCall, env: Env, chainResults: CheckerFramework.Results)
    ensures var out := CheckerFramework.MemberOutcome(MemberFor(kind, call, env), chainResults);
      out.Returned? ==> out.updates == HandedBack(kind, chainResults, env)
  {
    MemberRunsChecker(kind, call, env, chainResults);
    var start := InitialResults(kind) + chainResults;
    if CheckerFramework.MemberOutcome(MemberFor(kind, call, env), chainResults).Returned? {
      if kind == TableCompilation {
        CompilationSetsWidth(call, env, start);
      } else {
        CheckerKeepsResults(kind, call, env, start);
      }
    }
  }
}
