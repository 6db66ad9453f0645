/**
 * The data a table/figure checker looks at: the data frame (as a grid of
 * abstract cells with labelled axes), the keyword arguments of the
 * `df_to_latex` / `df_to_figure` call, and the values that helpers outside
 * the model supply (plot-size limits, the pdflatex width, the longest
 * labels, the abbreviation test). Also the kinds of checker, their class
 * attributes, and the details an issue carries.
 */
module DfModel {
  import opened Wrappers
  import opened RunIssues
  import opened PyText
  import CheckerFramework

  /** An axis label. `LTuple` is the label of a multi-index entry. */
  datatype Label =
    | LInt(i: int)
    | LFloat(x: real)
    | LNaN
    | LStr(s: string)
    | LBool(b: bool)
    | LTuple(parts: seq<Label>)
    | LOther(typeName: string)

  /** The pandas dtypes the checks distinguish. */
  datatype DType = IntDType | FloatDType | BoolDType | ObjectDType

  /** `pd.api.types.is_numeric_dtype`: booleans count as numeric. */
  predicate IsNumericDType(d: DType) {
    d != ObjectDType
  }

  /** An index or the columns of a frame: labels, whether it is a MultiIndex, its dtype and its level names. */
  datatype Axis = Axis(labels: seq<Label>, isMulti: bool, dtype: DType, names: seq<Option<string>>)

  /** A cell value. `CPValue` wraps the raw value of a p-value; `CNested` is a Series or DataFrame inside a cell. */
  datatype Cell =
    | CInt(i: int)
    | CFloat(x: real)
    | CNaN
    | CNone
    | CStr(s: string)
    | CBool(b: bool)
    | CTuple(items: seq<Cell>)
    | CPValue(raw: Cell)
    | CNested(typeName: string)
    | COther(typeName: string)

  /**
   * A data frame: row labels (`index`), column labels, the rows of cells and
   * one dtype per column. `extraInfo` is present when the frame is the loaded
   * one (a ListInfoDataFrame) and lists the file name recorded by each step.
   */
  datatype Table = Table(index: Axis, columns: Axis, rows: seq<seq<Cell>>, columnDtypes: seq<DType>,
                         extraInfo: Option<seq<string>>)

  predicate WellShaped(t: Table) {
    && |t.rows| == |t.index.labels|
    && |t.columnDtypes| == |t.columns.labels|
    && forall r | 0 <= r < |t.rows| :: |t.rows[r]| == |t.columns.labels|
  }

  type Frame = t: Table | WellShaped(t)
    witness Table(Axis([], false, IntDType, []), Axis([], false, ObjectDType, []), [], [], None)

  function NumRows(df: Frame): nat {
    |df.index.labels|
  }

  function NumColumns(df: Frame): nat {
    |df.columns.labels|
  }

  /** `df.values.flatten()`: the cells in row-major order. */
  function Flatten(rows: seq<seq<Cell>>): (r: seq<Cell>)
    ensures forall c | c in r :: exists i | 0 <= i < |rows| :: c in rows[i]
    ensures forall i, c | 0 <= i < |rows| && c in rows[i] :: c in r
  {
    if rows == [] then [] else rows[0] + Flatten(rows[1..])
  }

  /** Column `c` of the frame, top to bottom (`df.iloc[:, c]`). */
  function Column(df: Frame, c: nat): (r: seq<Cell>)
    requires c < NumColumns(df)
    ensures |r| == NumRows(df) && forall i | 0 <= i < |r| :: r[i] == df.rows[i][c]
  {
    seq(NumRows(df), i requires 0 <= i < NumRows(df) => df.rows[i][c])
  }

  /** The position of the first column labelled `name` (where `df[name]` looks), if any. */
  function ColumnPosition(df: Frame, name: string): (r: Option<nat>)
    ensures r.None? <==> LStr(name) !in df.columns.labels
    ensures r.Some? ==>
      && r.value < NumColumns(df) && df.columns.labels[r.value] == LStr(name)
      && forall k | 0 <= k < r.value :: df.columns.labels[k] != LStr(name)
  {
    FirstIndexOf(df.columns.labels, LStr(name))
  }

  function FirstIndexOf<T(==)>(s: seq<T>, x: T): (r: Option<nat>)
    ensures r.None? <==> x !in s
    ensures r.Some? ==> r.value < |s| && s[r.value] == x && forall k | 0 <= k < r.value :: s[k] != x
  {
    if s == [] then None
    else if s[0] == x then Some(0)
    else match FirstIndexOf(s[1..], x)
      case None => None
      case Some(k) => Some(k + 1)
  }

  /** A keyword argument that may be one column name or a list of them. */
  datatype Arg = One(name: string) | Many(names: seq<string>)

  /** `[arg] if isinstance(arg, str) else arg`. */
  function AsList(a: Arg): (r: seq<string>)
    ensures a.One? ==> r == [a.name]
    ensures a.Many? ==> r == a.names
  {
    match a
    case One(n) => [n]
    case Many(ns) => ns
  }

  /** Python truth value of the argument: a non-empty string or a non-empty list. */
  predicate ArgIsTruthy(a: Arg) {
    match a
    case One(n) => n != []
    case Many(ns) => ns != []
  }

  /**
   * The keyword arguments of the call. `None` stands for a key that is not
   * present; `hasColumnsArg` records whether `columns` is a key.
   */
  datatype Kwargs = Kwargs(
    index: Option<bool>,
    useIndex: Option<bool>,
    hasColumnsArg: bool,
    labelArg: Option<string>,
    kind: Option<string>,
    x: Option<string>,
    y: Option<Arg>,
    yerr: Option<Arg>,
    yCi: Option<Arg>,
    xCi: Option<Arg>,
    yPValue: Option<Arg>,
    xPValue: Option<Arg>,
    xlabel: Option<string>,
    ylabel: Option<string>,
    logx: Option<bool>,
    logy: Option<bool>,
    caption: Option<string>,
    note: Option<string>,
    glossary: Option<seq<string>>)

  /** What pdflatex compilation returns: the table width relative to the page, or the error text. */
  datatype CompileResult = Width(w: real) | CompileError(message: string)

  /** The compilation function's answers for the table and for its transpose. */
  datatype Compiler = Compiler(table: CompileResult, transposed: CompileResult)

  /**
   * Values supplied by code outside the model, for the call being checked:
   * the allowed plot kinds, `get_max_rows_and_columns(is_figure, kind)` (None
   * for no limit), `MAX_BARS`, the compilation function if one is provided,
   * the longest index labels and the longest column labels of the frame, and
   * `is_unknown_abbreviation`.
   */
  datatype Env = Env(
    allowedPlotKinds: seq<string>,
    maxRowsAndColumns: (bool, Option<string>) -> (Option<nat>, Option<nat>),
    maxBars: Option<nat>,
    compiler: Option<Compiler>,
    longestIndexLabels: seq<Option<string>>,
    longestColumnLabels: seq<string>,
    isUnknownAbbreviation: string -> bool)

  /** `is_lower_eq(a, b)`: `a <= b`, where a missing bound is no bound. */
  predicate LowerEq(a: nat, bound: Option<nat>) {
    bound.None? || a <= bound.value
  }

  /** A frame from an earlier call; `isSelf` holds when it is the very frame being checked. */
  datatype PriorDf = PriorDf(name: string, df: Frame, isSelf: bool)

  /** The arguments every df checker is created with. */
  datatype DfCall = DfCall(df: Frame, filename: string, kwargs: Kwargs, priorDfs: seq<PriorDf>)

  datatype CheckerKind =
    | TableSyntax
    | FigureSyntax
    | TableContent
    | FigureContent
    | TableCompilation
    | FigureCompilation
    | SecondTable
    | SecondFigure
    | Annotation
    | Continuity

  /** `is_figure`: the kind's `func_name` is `df_to_figure`. The continuity and annotation checkers keep the default name. */
  predicate IsFigure(kind: CheckerKind) {
    kind in {FigureSyntax, FigureContent, FigureCompilation, SecondFigure}
  }

  /** The `stop_after_first_issue` default of each kind. */
  predicate StopAfterFirstIssue(kind: CheckerKind) {
    !(kind in {TableSyntax, FigureSyntax, Annotation})
  }

  const SyntaxCategory := "Checking df_to_figure/df_to_latex for call syntax"
  const ContentCategory := "Checking content of created dfs"
  const FigureCategory := "Checking figure"
  const ContinuityCategory := "File continuity"

  function DefaultCategory(kind: CheckerKind): string {
    match kind
    case TableSyntax => SyntaxCategory
    case FigureSyntax => SyntaxCategory
    case FigureContent => FigureCategory
    case Continuity => ContinuityCategory
    case _ => ContentCategory
  }

  function DefaultCodeProblem(kind: CheckerKind): CodeProblem {
    if kind in {TableSyntax, FigureSyntax} then OutputFileCallingSyntax else OutputFileContentA
  }

  /** The intermediate results a freshly created checker holds: the compilation checkers start with `width` None. */
  function InitialResults(kind: CheckerKind): map<string, CheckerFramework.Value> {
    if kind in {TableCompilation, FigureCompilation} then map["width" := CheckerFramework.NoneValue] else map[]
  }

  /** The `index` property: whether the frame's index is shown. */
  predicate UsesIndex(kind: CheckerKind, kw: Kwargs) {
    if IsFigure(kind) then kw.useIndex.GetOr(true) && kw.x.None? else kw.index.GetOr(true)
  }

  datatype Side = RowSide | ColumnSide

  /** The two directions of the size check. */
  datatype Dimension = Rows | Columns

  /** The issues of the caption and note rules. */
  datatype CaptionProblem =
    | Missing(item: string)
    | ForbiddenStart(item: string, start: string)
    | HasEllipsis(item: string)
    | HasPlaceholder(item: string)
    | NoteRepeatsCaption

  /** What an issue reports, one alternative per kind of issue. */
  datatype Detail =
    | BadFilename(filename: string)
    | LabelArgUsed
    | IndexIsFalse
    | ColumnsArgUsed
    | KindNotSpecified
    | KindNotSupported(kind: string)
    | NoYValues
    | YerrUsed
    | MissingColumns(argName: string, columns: seq<string>)
    | NestedValue(typeName: string)
    | DisallowedValueTypes(typeNames: set<string>)
    | NaNValues(count: nat)
    | MultiIndexNotAllowed(side: Side)
    | UnsupportedHeaderTypes(side: Side, typeNames: set<string>)
    | IndexIsRange(numRows: nat)
    | TooMany(dimension: Dimension, count: nat, max: Option<nat>, transposeHint: bool)
    | DescribeTable
    | RepeatedValue(value: real, positions: seq<(nat, nat)>)
    | OverlapWithPrior(priorName: string)
    | NonNumericY(column: string)
    | XPValueUsed
    | MixedPValueColumns(pValueColumns: seq<Label>)
    | BothPValueArgs
    | ChosenNotPValues(columns: seq<string>)
    | PValuesNotInY(pValueColumns: seq<Label>)
    | TooManyBars(count: nat)
    | NotDiverse(column: string, numUnique: nat)
    | NonNumericX
    | CompilationFailed(message: string)
    | TooWide(longIndexLabels: seq<string>, longColumnLabels: seq<string>, dropColumnsHint: bool, transposeHint: bool)
    | SameValueInColumn(columnLabel: Label)
    | OddsRatioLabel(axis: string, term: string)
    | UnallowedCharacter(character: char, side: Side, labels: seq<string>)
    | AbbreviationsNotInGlossary(labels: seq<string>, narrowHint: bool)
    | GlossaryLabelsNotInDf(labels: seq<string>)
    | Caption(problem: CaptionProblem)
    | NotLoadedDf
    | WrongContinuityFilename(previous: string, expected: string)

  type DfIssue = RunIssue<Detail>

  /** What a check passes to `_append_issue`: an optional category, an optional `forgive_after`, and the issue. */
  datatype Raw = Raw(category: Option<string>, forgiveAfter: Option<nat>, detail: Detail)

  /** The df checker's `_append_issue`: missing category, code problem and item take the checker's defaults. */
  function WithDefaults(kind: CheckerKind, filename: string, raw: Raw): (r: DfIssue)
    ensures r.category == Some(if raw.category.Some? then raw.category.value else DefaultCategory(kind))
    ensures r.item == Some(filename) && r.codeProblem == Some(DefaultCodeProblem(kind))
    ensures r.forgiveAfter == raw.forgiveAfter && r.detail == raw.detail
  {
    RunIssue(Some(raw.category.GetOr(DefaultCategory(kind))), Some(filename), Some(DefaultCodeProblem(kind)),
             raw.forgiveAfter, raw.detail)
  }

  function AllWithDefaults(kind: CheckerKind, filename: string, raws: seq<Raw>): (r: seq<DfIssue>)
    ensures |r| == |raws| && forall k | 0 <= k < |raws| :: r[k] == WithDefaults(kind, filename, raws[k])
    ensures forall i | i in r :: i.item == Some(filename) && i.codeProblem == Some(DefaultCodeProblem(kind))
  {
    seq(|raws|, k requires 0 <= k < |raws| => WithDefaults(kind, filename, raws[k]))
  }
}
