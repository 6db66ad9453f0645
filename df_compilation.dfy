/**
 * The compilation checker of tables: compile the table, record its width,
 * and report a compilation failure or a table that is too wide, with the
 * remedies that apply.
 */
module DfCompilation {
  import opened Wrappers
  import opened DfModel
  import CheckerFramework

  type ErrorOr<T> = Result<T, CheckerFramework.PyError>

  const CompilationFailureCategory := "Table pdflatex compilation failure"
  const TooWideCategory := "Table too wide"

  /** A table wider than this (relative to the page) is too wide. */
  const MaxWidth: real := 13.0 / 10.0
  /** The transposed table is suggested when it is narrower than this. */
  const MaxTransposedWidth: real := 11.0 / 10.0
  /** Labels longer than this many characters are suggested for renaming. */
  const LongLabelLength: nat := 6

  /** The value stored under `width`: the float, or the error text the compiler returned. */
  function WidthValue(e: CompileResult): (v: CheckerFramework.Value)
    ensures e.Width? <==> v.FloatValue?
    ensures e.Width? ==> v.x == e.w
    ensures e.CompileError? ==> v == CheckerFramework.TextValue(e.message)
  {
    match e
    case Width(w) => CheckerFramework.FloatValue(w)
    case CompileError(m) => CheckerFramework.TextValue(m)
  }

  /** The index labels that are present and longer than six characters, in order. */
  function LongIndexLabels(labels: seq<Option<string>>): (r: seq<string>)
    ensures forall l | l in r :: |l| > LongLabelLength && Some(l) in labels
    ensures forall l | Some(l) in labels && |l| > LongLabelLength :: l in r
  {
    if labels == [] then []
    else (if labels[0].Some? && |labels[0].value| > LongLabelLength then [labels[0].value] else []) + LongIndexLabels(labels[1..])
  }

  /** The column labels longer than six characters, in order. */
  function LongColumnLabels(labels: seq<string>): (r: seq<string>)
    ensures forall l | l in r :: |l| > LongLabelLength && l in labels
    ensures forall l | l in labels && |l| > LongLabelLength :: l in r
  {
    if labels == [] then []
    else (if |labels[0]| > LongLabelLength then [labels[0]] else []) + LongColumnLabels(labels[1..])
  }

  /** The result with which the table is compiled: `0.` when no compilation function is provided. */
  function TableWidth(env: Env): CompileResult {
    if env.compiler.None? then Width(0.0) else env.compiler.value.table
  }

  /**
   * `check_compilation_and_get_width`: the new `width` and the issues. A
   * compilation error is reported as such. A table wider than 1.3 is
   * reported with its remedies: the transpose (when the transposed table
   * compiles narrower than 1.1), renaming the long row and column labels
   * (only when the index is shown), and dropping columns when no other
   * remedy applies. Transposing asserts that `columns` was not passed.
   */
  function CheckCompilationAndGetWidth(call: DfCall, env: Env): (r: ErrorOr<(CheckerFramework.Value, seq<Raw>)>)
    ensures r.Success? ==> r.value.0 == WidthValue(TableWidth(env))
    ensures env.compiler.None? ==> r == Success((CheckerFramework.FloatValue(0.0), []))
    ensures TableWidth(env).CompileError? ==>
      r == Success((CheckerFramework.TextValue(TableWidth(env).message),
                    [Raw(Some(CompilationFailureCategory), None, CompilationFailed(TableWidth(env).message))]))
    ensures TableWidth(env).Width? && TableWidth(env).w <= MaxWidth ==> r.Success? && r.value.1 == []
    ensures TableWidth(env).Width? && TableWidth(env).w > MaxWidth ==>
      (r.Failure? <==> call.kwargs.hasColumnsArg) && (r.Failure? ==> r.error == CheckerFramework.AssertionError)
    ensures r.Success? && TableWidth(env).Width? && TableWidth(env).w > MaxWidth ==>
      && |r.value.1| == 1 && r.value.1[0].category == Some(TooWideCategory) && r.value.1[0].detail.TooWide?
      && var d := r.value.1[0].detail;
         && (d.transposeHint <==> env.compiler.value.transposed.Width? && env.compiler.value.transposed.w < MaxTransposedWidth)
         && (!UsesIndex(TableCompilation, call.kwargs) ==> d.longIndexLabels == [] && d.longColumnLabels == [])
         && (UsesIndex(TableCompilation, call.kwargs) ==>
               d.longIndexLabels == LongIndexLabels(env.longestIndexLabels)
               && d.longColumnLabels == LongColumnLabels(env.longestColumnLabels))
         && (d.dropColumnsHint <==> d.longIndexLabels == [] && d.longColumnLabels == [] && !d.transposeHint)
  {
    var e := TableWidth(env);
    match e
    case CompileError(m) =>
      Success((WidthValue(e), [Raw(Some(CompilationFailureCategory), None, CompilationFailed(m))]))
    case Width(w) =>
      if w <= MaxWidth then Success((WidthValue(e), []))
      else if call.kwargs.hasColumnsArg then Failure(CheckerFramework.AssertionError)
      else
        var t := env.compiler.value.transposed;
        var transpose := t.Width? && t.w < MaxTransposedWidth;
        var shown := UsesIndex(TableCompilation, call.kwargs);
        var longIndex := if shown then LongIndexLabels(env.longestIndexLabels) else [];
        var longColumns := if shown then LongColumnLabels(env.longestColumnLabels) else [];
        var drop := longIndex == [] && longColumns == [] && !transpose;
        Success((WidthValue(e), [Raw(Some(TooWideCategory), None, TooWide(longIndex, longColumns, drop, transpose))]))
  }

  /** Some remedy is always offered for a table that is too wide. */
  lemma TooWideAlwaysHasRemedy(call: DfCall, env: Env)
    requires CheckCompilationAndGetWidth(call, env).Success?
    requires TableWidth(env).Width? && TableWidth(env).w > MaxWidth
    ensures var d := CheckCompilationAndGetWidth(call, env).value.1[0].detail;
      d.dropColumnsHint || d.transposeHint || d.longIndexLabels != [] || d.longColumnLabels != []
  {
  }
}
