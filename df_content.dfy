/**
 * The content checks of the analysis step: value types, NaN values, header
 * types, a trivial range index and the size limits (for tables and figures),
 * the describe-table, repeated-value and prior-table checks (tables only),
 * and the checks of the plotted columns (figures only).
 */
module DfContent {
  import opened Wrappers
  import opened DfModel
  import CheckerFramework

  type ErrorOr<T> = Result<T, CheckerFramework.PyError>

  const ValuesCategory := "Problem with df values"
  const IndexColumnCategory := "Problem with df index/columns"
  const SizeCategory := "Too large df"
  const OverlappingValuesCategory := "Overlapping values"
  const DescribeCategory := "The df looks like a df.describe() table, not a scientific table"
  const PValueCategory := "Plotting P-values"

  // ---------------------------------------------------------------- value types

  /** `type(value).__name__`. */
  function TypeName(c: Cell): string {
    match c
    case CInt(_) => "int"
    case CFloat(_) => "float"
    case CNaN => "float"
    case CNone => "NoneType"
    case CStr(_) => "str"
    case CBool(_) => "bool"
    case CTuple(_) => "tuple"
    case CPValue(_) => "PValue"
    case CNested(t) => t
    case COther(t) => t
  }

  /** Numbers, strings, booleans, tuples and p-values are allowed cell values. */
  predicate IsAllowedValue(c: Cell) {
    !(c.CNone? || c.CNested? || c.COther?)
  }

  function FirstNested(cells: seq<Cell>): (r: Option<Cell>)
    ensures r.None? <==> forall c | c in cells :: !c.CNested?
    ensures r.Some? ==> r.value in cells && r.value.CNested?
  {
    if cells == [] then None
    else if cells[0].CNested? then Some(cells[0])
    else FirstNested(cells[1..])
  }

  function DisallowedTypeNames(cells: seq<Cell>): (r: set<string>)
    ensures r == {} <==> forall c | c in cells :: IsAllowedValue(c)
  {
    var names := set c | c in cells && !IsAllowedValue(c) :: TypeName(c);
    assert forall c | c in cells && !IsAllowedValue(c) :: TypeName(c) in names;
    names
  }

  /**
   * `check_df_value_types`: a Series or DataFrame inside a cell is reported on
   * its own (the first one found); otherwise one issue lists the names of all
   * disallowed value types. No issue exactly when every value is allowed.
   */
  function CheckDfValueTypes(df: Frame): (r: seq<Raw>)
    ensures |r| <= 1
    ensures r == [] <==> forall c | c in Flatten(df.rows) :: IsAllowedValue(c)
    ensures FirstNested(Flatten(df.rows)).Some? ==>
      r == [Raw(Some(ValuesCategory), None, NestedValue(TypeName(FirstNested(Flatten(df.rows)).value)))]
    ensures FirstNested(Flatten(df.rows)).None? && r != [] ==>
      r == [Raw(Some(ValuesCategory), None, DisallowedValueTypes(DisallowedTypeNames(Flatten(df.rows))))]
  {
    var cells := Flatten(df.rows);
    match FirstNested(cells)
    case Some(v) =>
      assert !IsAllowedValue(v);
      [Raw(Some(ValuesCategory), None, NestedValue(TypeName(v)))]
    case None =>
      var names := DisallowedTypeNames(cells);
      if names == {} then [] else [Raw(Some(ValuesCategory), None, DisallowedValueTypes(names))]
  }

  // ---------------------------------------------------------------- NaN values

  /** `pd.isnull`, applied to the raw value of a p-value. */
  predicate IsNull(c: Cell) {
    match c
    case CNaN => true
    case CNone => true
    case CPValue(v) => v.CNaN? || v.CNone?
    case _ => false
  }

  function CountNulls(cells: seq<Cell>): (n: nat)
    ensures n <= |cells|
    ensures n == 0 <==> forall c | c in cells :: !IsNull(c)
  {
    if cells == [] then 0 else (if IsNull(cells[0]) then 1 else 0) + CountNulls(cells[1..])
  }

  /** `check_df_for_nan_values`: one issue, carrying the number of null cells, exactly when there is one. */
  function CheckDfForNanValues(df: Frame): (r: seq<Raw>)
    ensures r == [] <==> forall c | c in Flatten(df.rows) :: !IsNull(c)
    ensures r != [] ==>
      r == [Raw(Some(ValuesCategory), None, NaNValues(CountNulls(Flatten(df.rows))))] && CountNulls(Flatten(df.rows)) > 0
  {
    var n := CountNulls(Flatten(df.rows));
    if n > 0 then [Raw(Some(ValuesCategory), None, NaNValues(n))] else []
  }

  // ---------------------------------------------------------------- header types

  /** The header values whose types are checked: for a MultiIndex, the values of every level. */
  function HeaderValues(axis: Axis): (r: seq<Label>)
    ensures !axis.isMulti ==> r == axis.labels
  {
    if axis.isMulti then LevelValues(axis.labels) else axis.labels
  }

  function LevelValues(labels: seq<Label>): (r: seq<Label>)
    ensures forall l | l in labels && !l.LTuple? :: l in r
    ensures forall l, p | l in labels && l.LTuple? && p in l.parts :: p in r
  {
    if labels == [] then []
    else (if labels[0].LTuple? then labels[0].parts else [labels[0]]) + LevelValues(labels[1..])
  }

  function LabelTypeName(l: Label): string {
    match l
    case LInt(_) => "int"
    case LFloat(_) => "float"
    case LNaN => "float"
    case LStr(_) => "str"
    case LBool(_) => "bool"
    case LTuple(_) => "tuple"
    case LOther(t) => t
  }

  /**
   * `ALLOWED_COLUMN_AND_INDEX_TYPES`: `(int, str, bool)` on both axes, except
   * that a figure allows only `str` column labels and `(int, str, bool,
   * float)` index labels.
   */
  predicate IsAllowedHeader(kind: CheckerKind, side: Side, l: Label) {
    if kind == FigureContent then
      if side == ColumnSide then l.LStr? else l.LInt? || l.LStr? || l.LBool? || l.LFloat? || l.LNaN?
    else l.LInt? || l.LStr? || l.LBool?
  }

  /** `ALLOW_MULTI_INDEX_FOR_COLUMN_AND_INDEX`: a figure allows no MultiIndex. */
  predicate AllowsMultiIndex(kind: CheckerKind) {
    kind != FigureContent
  }

  predicate HeadersAllowed(kind: CheckerKind, side: Side, axis: Axis) {
    (AllowsMultiIndex(kind) || !axis.isMulti)
    && forall l | l in HeaderValues(axis) :: IsAllowedHeader(kind, side, l)
  }

  function HeaderIssue(kind: CheckerKind, side: Side, axis: Axis): (r: seq<Raw>)
    ensures |r| <= 1 && (r == [] <==> HeadersAllowed(kind, side, axis))
    ensures !AllowsMultiIndex(kind) && axis.isMulti ==> r == [Raw(Some(IndexColumnCategory), None, MultiIndexNotAllowed(side))]
  {
    if !AllowsMultiIndex(kind) && axis.isMulti then [Raw(Some(IndexColumnCategory), None, MultiIndexNotAllowed(side))]
    else
      var bad := set l | l in HeaderValues(axis) && !IsAllowedHeader(kind, side, l) :: LabelTypeName(l);
      assert forall l | l in HeaderValues(axis) && !IsAllowedHeader(kind, side, l) :: LabelTypeName(l) in bad;
      if bad == {} then [] else [Raw(Some(IndexColumnCategory), None, UnsupportedHeaderTypes(side, bad))]
  }

  /** `check_df_headers_type`: at most one issue for the columns, then at most one for the index. */
  function CheckDfHeadersType(kind: CheckerKind, df: Frame): (r: seq<Raw>)
    ensures |r| <= 2
    ensures r == [] <==> HeadersAllowed(kind, ColumnSide, df.columns) && HeadersAllowed(kind, RowSide, df.index)
  {
    HeaderIssue(kind, ColumnSide, df.columns) + HeaderIssue(kind, RowSide, df.index)
  }

  // ---------------------------------------------------------------- trivial index

  /** The index is a plain `0 .. n-1` range of integers (not a MultiIndex, with int dtype). */
  predicate IsRangeIndex(axis: Axis) {
    && !axis.isMulti
    && axis.dtype == IntDType
    && forall i | 0 <= i < |axis.labels| :: axis.labels[i] == LInt(i)
  }

  /** `check_df_index_is_a_range`: one issue exactly when the index is shown and is a plain range. */
  function CheckDfIndexIsARange(kind: CheckerKind, call: DfCall): (r: seq<Raw>)
    ensures r == [] <==> !(UsesIndex(kind, call.kwargs) && IsRangeIndex(call.df.index))
    ensures r != [] ==> r == [Raw(Some(IndexColumnCategory), None, IndexIsRange(NumRows(call.df)))]
  {
    if UsesIndex(kind, call.kwargs) && IsRangeIndex(call.df.index) then
      [Raw(Some(IndexColumnCategory), None, IndexIsRange(NumRows(call.df)))]
    else []
  }

  /** String labels `'0' .. 'n-1'`, or a non-int dtype, are not a range index. */
  lemma StringLabelsAreNotARange(axis: Axis)
    requires axis.labels != [] && (axis.labels[0].LStr? || axis.dtype != IntDType)
    ensures !IsRangeIndex(axis)
  {
  }

  // ---------------------------------------------------------------- size

  /** The size issues of a frame of `rows` x `columns` under the given limits. */
  function SizeIssues(rows: nat, columns: nat, maxRows: Option<nat>, maxColumns: Option<nat>): (r: seq<Raw>)
    ensures r == [] <==> LowerEq(rows, maxRows) && LowerEq(columns, maxColumns)
    ensures |r| == (if LowerEq(rows, maxRows) then 0 else 1) + (if LowerEq(columns, maxColumns) then 0 else 1)
    ensures forall i | i in r ::
      i.detail.TooMany? && i.category == Some(SizeCategory)
      && (i.detail.transposeHint <==> LowerEq(rows, maxColumns) && LowerEq(columns, maxRows))
    ensures forall i | i in r :: i.detail.dimension == Rows ==> !LowerEq(rows, maxRows) && i.detail.count == rows
    ensures forall i | i in r :: i.detail.dimension == Columns ==> !LowerEq(columns, maxColumns) && i.detail.count == columns
    ensures !LowerEq(rows, maxRows) ==> r[0].detail.dimension == Rows
    ensures !LowerEq(columns, maxColumns) ==> r[|r| - 1].detail.dimension == Columns
  {
    if LowerEq(rows, maxRows) && LowerEq(columns, maxColumns) then []
    else
      var transpose := LowerEq(rows, maxColumns) && LowerEq(columns, maxRows);
      (if LowerEq(rows, maxRows) then [] else [Raw(Some(SizeCategory), None, TooMany(Rows, rows, maxRows, transpose))])
      + (if LowerEq(columns, maxColumns) then [] else [Raw(Some(SizeCategory), None, TooMany(Columns, columns, maxColumns, transpose))])
  }

  /** When the issues suggest transposing, the transposed frame passes the size check. */
  lemma TransposeHintMeansTransposedFits(rows: nat, columns: nat, maxRows: Option<nat>, maxColumns: Option<nat>)
    requires exists i | i in SizeIssues(rows, columns, maxRows, maxColumns) :: i.detail.transposeHint
    ensures SizeIssues(columns, rows, maxRows, maxColumns) == []
  {
  }

  /** `check_df_size`, with the limits of `get_max_rows_and_columns(is_figure, kind)`. */
  function CheckDfSize(kind: CheckerKind, call: DfCall, env: Env): (r: seq<Raw>)
    ensures var (maxRows, maxColumns) := env.maxRowsAndColumns(IsFigure(kind), call.kwargs.kind);
      r == [] <==> LowerEq(NumRows(call.df), maxRows) && LowerEq(NumColumns(call.df), maxColumns)
  {
    var (maxRows, maxColumns) := env.maxRowsAndColumns(IsFigure(kind), call.kwargs.kind);
    SizeIssues(NumRows(call.df), NumColumns(call.df), maxRows, maxColumns)
  }

  // ---------------------------------------------------------------- describe table

  const DescriptionLabels: seq<string> := ["mean", "std", "min", "25%", "50%", "75%", "max"]

  predicate HasAllDescriptionLabels(axis: Axis) {
    forall l | l in DescriptionLabels :: LStr(l) in axis.labels
  }

  /** `check_df_is_a_result_of_describe`: all seven `describe()` labels among the columns or among the row labels. */
  function CheckDfIsAResultOfDescribe(df: Frame): (r: seq<Raw>)
    ensures r == [] <==> !HasAllDescriptionLabels(df.columns) && !HasAllDescriptionLabels(df.index)
    ensures r != [] ==> r == [Raw(Some(DescribeCategory), Some(3), DescribeTable)]
  {
    if HasAllDescriptionLabels(df.columns) || HasAllDescriptionLabels(df.index) then
      [Raw(Some(DescribeCategory), Some(3), DescribeTable)]
    else []
  }

  // ---------------------------------------------------------------- repeated values

  /** `is_non_integer_numeric`: a float with a fractional part. */
  predicate IsNonIntegerNumeric(c: Cell) {
    c.CFloat? && c.x != c.x.Floor as real
  }

  /** The non-integer numeric cell values, in order. */
  function NonIntegerValues(cells: seq<Cell>): (r: seq<real>)
    ensures |r| <= |cells|
    ensures r == [] <==> forall c | c in cells :: !IsNonIntegerNumeric(c)
    ensures forall x | x in r :: CFloat(x) in cells && IsNonIntegerNumeric(CFloat(x))
    ensures forall c | c in cells && IsNonIntegerNumeric(c) :: c.x in r
  {
    if cells == [] then []
    else (if IsNonIntegerNumeric(cells[0]) then [cells[0].x] else []) + NonIntegerValues(cells[1..])
  }

  predicate Distinct(vals: seq<real>) {
    forall i, j | 0 <= i < j < |vals| :: vals[i] != vals[j]
  }

  /** `len(values) == len(set(values))` holds exactly for lists without a repeated value. */
  lemma {:induction false} DistinctIffSetSize(vals: seq<real>)
    ensures Distinct(vals) <==> |set v | v in vals| == |vals|
  {
    if vals != [] {
      var rest := vals[1..];
      DistinctIffSetSize(rest);
      var s := set v | v in vals;
      var t := set v | v in rest;
      assert s == t + {vals[0]} by {
        assert forall v | v in vals :: v == vals[0] || v in rest;
      }
      assert |t| <= |rest| by { SetSizeAtMost(rest); }
      if vals[0] in rest {
        assert s == t;
        var j :| 0 <= j < |rest| && rest[j] == vals[0];
        assert vals[0] == vals[j + 1];
        assert !Distinct(vals);
      } else {
        assert |s| == |t| + 1;
        if Distinct(rest) {
          forall i, j | 0 <= i < j < |vals| ensures vals[i] != vals[j] {
            if i == 0 {
              assert vals[j] == rest[j - 1];
            } else {
              assert vals[i] == rest[i - 1] && vals[j] == rest[j - 1];
            }
          }
        } else {
          var i, j :| 0 <= i < j < |rest| && rest[i] == rest[j];
          assert vals[i + 1] == vals[j + 1];
        }
      }
    }
  }

  lemma {:induction false} SetSizeAtMost<T>(vals: seq<T>)
    ensures |set v | v in vals| <= |vals|
  {
    if vals != [] {
      SetSizeAtMost(vals[1..]);
      var s := set v | v in vals;
      var t := set v | v in vals[1..];
      assert s <= t + {vals[0]};
      SubsetSize(s, t + {vals[0]});
    }
  }

  /** The position of the first value of `vals`, from `from` on, that occurs more than once in `all`. */
  function FirstRepeated(vals: seq<real>, all: multiset<real>, from: nat): (r: Option<nat>)
    ensures r.None? <==> forall k | from <= k < |vals| :: all[vals[k]] <= 1
    ensures r.Some? ==>
      from <= r.value < |vals| && all[vals[r.value]] > 1 && forall k | from <= k < r.value :: all[vals[k]] <= 1
    decreases |vals| - from
  {
    if from >= |vals| then None
    else if all[vals[from]] > 1 then Some(from)
    else FirstRepeated(vals, all, from + 1)
  }

  /** The cells equal to `v`, as (row, column) pairs in row-major order. */
  function Positions(rows: seq<seq<Cell>>, v: real, first: nat): (r: seq<(nat, nat)>)
    ensures forall p | p in r ::
      first <= p.0 < first + |rows| && p.1 < |rows[p.0 - first]| && rows[p.0 - first][p.1] == CFloat(v)
    ensures forall i, c | 0 <= i < |rows| && 0 <= c < |rows[i]| && rows[i][c] == CFloat(v) :: (first + i, c) in r
    decreases |rows|
  {
    if rows == [] then []
    else RowPositions(rows[0], v, first, 0) + Positions(rows[1..], v, first + 1)
  }

  function RowPositions(row: seq<Cell>, v: real, i: nat, from: nat): (r: seq<(nat, nat)>)
    ensures forall p | p in r :: p.0 == i && from <= p.1 < |row| && row[p.1] == CFloat(v)
    ensures forall c | from <= c < |row| && row[c] == CFloat(v) :: (i, c) in r
    decreases |row| - from
  {
    if from >= |row| then []
    else (if row[from] == CFloat(v) then [(i, from)] else []) + RowPositions(row, v, i, from + 1)
  }

  /**
   * `check_df_for_repeated_values`: when the non-integer numeric values hold
   * a repeat, one issue names the first repeated value and every cell that
   * holds it; it is forgiven after one repetition.
   */
  function CheckDfForRepeatedValues(df: Frame): (r: seq<Raw>)
    ensures |r| <= 1
    ensures (forall c | c in Flatten(df.rows) :: !IsNonIntegerNumeric(c)) ==> r == []
    ensures var vals := NonIntegerValues(Flatten(df.rows));
      r != [] ==>
        && r[0].category == Some(OverlappingValuesCategory) && r[0].forgiveAfter == Some(1)
        && r[0].detail.RepeatedValue?
        && multiset(vals)[r[0].detail.value] > 1
        && r[0].detail.value in vals
        && (forall p | p in r[0].detail.positions :: p.0 < NumRows(df) && p.1 < NumColumns(df)
              && df.rows[p.0][p.1] == CFloat(r[0].detail.value))
        && (forall i, c | 0 <= i < NumRows(df) && 0 <= c < NumColumns(df) && df.rows[i][c] == CFloat(r[0].detail.value) ::
              (i, c) in r[0].detail.positions)
    ensures var vals := NonIntegerValues(Flatten(df.rows));
      r != [] ==>
        var k := FirstRepeated(vals, multiset(vals), 0);
        k.Some? && r[0].detail.value == vals[k.value]
  {
    var vals := NonIntegerValues(Flatten(df.rows));
    if |vals| == |set v | v in vals| then []
    else
      match FirstRepeated(vals, multiset(vals), 0)
      case None => []
      case Some(k) =>
        var v := vals[k];
        [Raw(Some(OverlappingValuesCategory), Some(1), RepeatedValue(v, Positions(df.rows, v, 0)))]
  }

  /** The repeated-values issue is raised exactly when some non-integer value appears twice. */
  lemma RepeatedValuesReportedIff(df: Frame)
    ensures CheckDfForRepeatedValues(df) != [] <==> !Distinct(NonIntegerValues(Flatten(df.rows)))
  {
    var vals := NonIntegerValues(Flatten(df.rows));
    DistinctIffSetSize(vals);
    if !Distinct(vals) {
      var i, j :| 0 <= i < j < |vals| && vals[i] == vals[j];
      MultisetCountTwo(vals, i, j);
    }
  }

  lemma MultisetCountTwo(vals: seq<real>, i: nat, j: nat)
    requires i < j < |vals| && vals[i] == vals[j]
    ensures multiset(vals)[vals[i]] > 1
  {
    var a, b, c := vals[..i], vals[i + 1..j], vals[j + 1..];
    assert vals == a + [vals[i]] + b + [vals[j]] + c;
    assert multiset(vals) == multiset(a) + multiset{vals[i]} + multiset(b) + multiset{vals[j]} + multiset(c);
  }

  // ---------------------------------------------------------------- prior tables

  predicate OverlapsPrior(vals: seq<real>, p: PriorDf) {
    !p.isSelf && exists v | v in vals :: v in NonIntegerValues(Flatten(p.df.rows))
  }

  function PriorOverlapIssues(vals: seq<real>, priors: seq<PriorDf>): (r: seq<Raw>)
    ensures forall i | i in r :: exists p | p in priors && OverlapsPrior(vals, p) ::
      i == Raw(Some(OverlappingValuesCategory), Some(1), OverlapWithPrior(p.name))
    ensures forall p | p in priors && OverlapsPrior(vals, p) ::
      Raw(Some(OverlappingValuesCategory), Some(1), OverlapWithPrior(p.name)) in r
    ensures r == [] <==> forall p | p in priors :: !OverlapsPrior(vals, p)
  {
    if priors == [] then []
    else
      (if OverlapsPrior(vals, priors[0]) then [Raw(Some(OverlappingValuesCategory), Some(1), OverlapWithPrior(priors[0].name))] else [])
      + PriorOverlapIssues(vals, priors[1..])
  }

  /** `check_df_for_repeated_values_in_prior_dfs`: one issue per earlier table sharing a non-integer value. */
  function CheckDfForRepeatedValuesInPriorDfs(call: DfCall): (r: seq<Raw>)
    ensures r == [] <==> forall p | p in call.priorDfs :: !OverlapsPrior(NonIntegerValues(Flatten(call.df.rows)), p)
    ensures call.priorDfs == [] ==> r == []
  {
    if call.priorDfs == [] then []
    else PriorOverlapIssues(NonIntegerValues(Flatten(call.df.rows)), call.priorDfs)
  }

  // ---------------------------------------------------------------- figure columns

  /** `df[column]` is numeric for each of `columns`; a missing column raises `KeyError`. */
  function NonNumericColumns(df: Frame, columns: seq<string>): (r: ErrorOr<seq<Raw>>)
    ensures r.Failure? <==> exists c | c in columns :: ColumnPosition(df, c).None?
    ensures r.Failure? ==> r.error.KeyError? && r.error.key in columns && ColumnPosition(df, r.error.key).None?
    ensures r.Success? ==>
      && (forall i | i in r.value :: exists c | c in columns ::
            i == Raw(None, None, NonNumericY(c)) && !IsNumericDType(df.columnDtypes[ColumnPosition(df, c).value]))
      && (forall c | c in columns && !IsNumericDType(df.columnDtypes[ColumnPosition(df, c).value]) ::
            Raw(None, None, NonNumericY(c)) in r.value)
  {
    if columns == [] then Success([])
    else
      match ColumnPosition(df, columns[0])
      case None => Failure(CheckerFramework.KeyError(columns[0]))
      case Some(k) =>
        match NonNumericColumns(df, columns[1..])
        case Failure(e) => Failure(e)
        case Success(rest) =>
          Success((if IsNumericDType(df.columnDtypes[k]) then [] else [Raw(None, None, NonNumericY(columns[0]))]) + rest)
  }

  /** `check_that_y_values_are_numeric`; iterating a missing `y` raises `TypeError`. */
  function CheckThatYValuesAreNumeric(df: Frame, kw: Kwargs): (r: ErrorOr<seq<Raw>>)
    ensures kw.y.None? ==> r == Failure(CheckerFramework.TypeError)
    ensures kw.y.Some? ==> r == NonNumericColumns(df, AsList(kw.y.value))
  {
    match kw.y
    case None => Failure(CheckerFramework.TypeError)
    case Some(a) => NonNumericColumns(df, AsList(a))
  }

  /** `is_containing_p_value`: some cell of the column is a p-value. */
  predicate ContainsPValue(cells: seq<Cell>) {
    exists c | c in cells :: c.CPValue?
  }

  /** `is_only_p_values`: every cell of the column is a p-value. */
  predicate OnlyPValues(cells: seq<Cell>) {
    forall c | c in cells :: c.CPValue?
  }

  /** The labels of the columns holding p-values, in column order, from column `from` on. */
  function PValueColumns(df: Frame, from: nat): (r: seq<Label>)
    ensures forall l | l in r :: exists c | from <= c < NumColumns(df) :: l == df.columns.labels[c] && ContainsPValue(Column(df, c))
    ensures forall c | from <= c < NumColumns(df) && ContainsPValue(Column(df, c)) :: df.columns.labels[c] in r
    decreases NumColumns(df) - from
  {
    if from >= NumColumns(df) then []
    else (if ContainsPValue(Column(df, from)) then [df.columns.labels[from]] else []) + PValueColumns(df, from + 1)
  }

  /** The labels of the columns that hold p-values and other values. */
  function MixedPValueColumnLabels(df: Frame, from: nat): (r: seq<Label>)
    ensures forall l | l in r :: exists c | from <= c < NumColumns(df) ::
      l == df.columns.labels[c] && ContainsPValue(Column(df, c)) && !OnlyPValues(Column(df, c))
    ensures forall c | from <= c < NumColumns(df) && ContainsPValue(Column(df, c)) && !OnlyPValues(Column(df, c)) ::
      df.columns.labels[c] in r
    ensures r == [] <==> forall c | from <= c < NumColumns(df) :: ContainsPValue(Column(df, c)) ==> OnlyPValues(Column(df, c))
    decreases NumColumns(df) - from
  {
    if from >= NumColumns(df) then []
    else
      (if ContainsPValue(Column(df, from)) && !OnlyPValues(Column(df, from)) then [df.columns.labels[from]] else [])
      + MixedPValueColumnLabels(df, from + 1)
  }

  function NamesNotIn(names: seq<string>, labels: seq<Label>): (r: seq<string>)
    ensures forall n | n in r :: n in names && LStr(n) !in labels
    ensures forall n | n in names && LStr(n) !in labels :: n in r
  {
    if names == [] then []
    else (if LStr(names[0]) in labels then [] else [names[0]]) + NamesNotIn(names[1..], labels)
  }

  function LabelsNotIn(labels: seq<Label>, names: seq<string>): (r: seq<Label>)
    ensures forall l | l in r :: l in labels && !(l.LStr? && l.s in names)
    ensures forall l | l in labels && !(l.LStr? && l.s in names) :: l in r
  {
    if labels == [] then []
    else (if labels[0].LStr? && labels[0].s in names then [] else [labels[0]]) + LabelsNotIn(labels[1..], names)
  }

  /**
   * `check_for_p_values_in_figure`. A truthy `x_p_value` is refused outright;
   * without `y_p_value` nothing is checked; columns mixing p-values with other
   * values are reported next; an `x_p_value` that is given but empty is
   * reported as both arguments being set; otherwise the chosen `y_p_value`
   * columns must be p-value columns, and every p-value column must be chosen.
   */
  function CheckForPValuesInFigure(df: Frame, kw: Kwargs): (r: seq<Raw>)
    ensures kw.xPValue.Some? && ArgIsTruthy(kw.xPValue.value) ==> r == [Raw(Some(PValueCategory), None, XPValueUsed)]
    ensures !(kw.xPValue.Some? && ArgIsTruthy(kw.xPValue.value)) && kw.yPValue.None? ==> r == []
    ensures !(kw.xPValue.Some? && ArgIsTruthy(kw.xPValue.value)) && kw.yPValue.Some? && MixedPValueColumnLabels(df, 0) != [] ==>
      r == [Raw(Some(PValueCategory), None, MixedPValueColumns(MixedPValueColumnLabels(df, 0)))]
    ensures kw.xPValue.Some? && !ArgIsTruthy(kw.xPValue.value) && kw.yPValue.Some? && MixedPValueColumnLabels(df, 0) == [] ==>
      r == [Raw(Some(PValueCategory), None, BothPValueArgs)]
    ensures kw.xPValue.None? && kw.yPValue.Some? && MixedPValueColumnLabels(df, 0) == [] ==>
      var chosen := AsList(kw.yPValue.value);
      var pCols := PValueColumns(df, 0);
      r == (if NamesNotIn(chosen, pCols) != [] then [Raw(Some(PValueCategory), None, ChosenNotPValues(NamesNotIn(chosen, pCols)))] else [])
           + (if LabelsNotIn(pCols, chosen) != [] then [Raw(Some(PValueCategory), Some(1), PValuesNotInY(LabelsNotIn(pCols, chosen)))] else [])
  {
    if kw.xPValue.Some? && ArgIsTruthy(kw.xPValue.value) then [Raw(Some(PValueCategory), None, XPValueUsed)]
    else if kw.yPValue.None? then []
    else
      var mixed := MixedPValueColumnLabels(df, 0);
      if mixed != [] then [Raw(Some(PValueCategory), None, MixedPValueColumns(mixed))]
      else if kw.xPValue.Some? then [Raw(Some(PValueCategory), None, BothPValueArgs)]
      else
        var chosen := AsList(kw.yPValue.value);
        var pCols := PValueColumns(df, 0);
        var notPValues := NamesNotIn(chosen, pCols);
        var notChosen := LabelsNotIn(pCols, chosen);
        (if notPValues != [] then [Raw(Some(PValueCategory), None, ChosenNotPValues(notPValues))] else [])
        + (if notChosen != [] then [Raw(Some(PValueCategory), Some(1), PValuesNotInY(notChosen))] else [])
  }

  /**
   * With only `y_p_value` given and no mixed column, the figure passes
   * exactly when the chosen columns and the p-value columns are the same.
   */
  lemma PValueChoiceAcceptedIff(df: Frame, kw: Kwargs)
    requires kw.xPValue.None? && kw.yPValue.Some? && MixedPValueColumnLabels(df, 0) == []
    ensures var chosen := AsList(kw.yPValue.value);
      var pCols := PValueColumns(df, 0);
      CheckForPValuesInFigure(df, kw) == [] <==>
        (forall n | n in chosen :: LStr(n) in pCols) && (forall l | l in pCols :: l.LStr? && l.s in chosen)
  {
    var chosen := AsList(kw.yPValue.value);
    var pCols := PValueColumns(df, 0);
    if NamesNotIn(chosen, pCols) != [] {
      assert NamesNotIn(chosen, pCols)[0] in NamesNotIn(chosen, pCols);
    }
    if LabelsNotIn(pCols, chosen) != [] {
      assert LabelsNotIn(pCols, chosen)[0] in LabelsNotIn(pCols, chosen);
    }
  }

  /** `check_for_max_number_of_bars`: bar plots with more than `MAX_BARS` bars (rows times `y` columns). */
  function CheckForMaxNumberOfBars(df: Frame, kw: Kwargs, maxBars: Option<nat>): (r: ErrorOr<seq<Raw>>)
    ensures kw.kind !in {Some("bar"), Some("barh")} ==> r == Success([])
    ensures kw.kind in {Some("bar"), Some("barh")} && kw.y.None? ==> r == Failure(CheckerFramework.TypeError)
    ensures kw.kind in {Some("bar"), Some("barh")} && kw.y.Some? ==>
      var n := NumRows(df) * |AsList(kw.y.value)|;
      r.Success? && (r.value == [] <==> LowerEq(n, maxBars))
      && (r.value != [] ==> r.value == [Raw(None, Some(2), TooManyBars(n))])
  {
    if kw.kind !in {Some("bar"), Some("barh")} then Success([])
    else match kw.y
      case None => Failure(CheckerFramework.TypeError)
      case Some(a) =>
        var n := NumRows(df) * |AsList(a)|;
        if LowerEq(n, maxBars) then Success([]) else Success([Raw(None, Some(2), TooManyBars(n))])
  }

  /** `nunique()`: the number of distinct values that are not missing. */
  function NumUnique(cells: seq<Cell>): (n: nat)
    ensures n <= |cells|
  {
    var s := set c | c in cells && !(c.CNaN? || c.CNone?);
    SetSizeAtMost(cells);
    assert s <= set c | c in cells;
    SubsetSize(s, set c | c in cells);
    |s|
  }

  lemma SubsetSize<T>(a: set<T>, b: set<T>)
    requires a <= b
    ensures |a| <= |b|
  {
    assert b == a + (b - a);
  }

  function NotDiverseColumns(df: Frame, columns: seq<string>): (r: ErrorOr<seq<Raw>>)
    ensures r.Failure? <==> exists c | c in columns :: ColumnPosition(df, c).None?
    ensures r.Success? ==>
      && (forall i | i in r.value :: exists c | c in columns ::
            var n := NumUnique(Column(df, ColumnPosition(df, c).value)); n <= 2 && i == Raw(None, None, NotDiverse(c, n)))
      && (forall c | c in columns && NumUnique(Column(df, ColumnPosition(df, c).value)) <= 2 ::
            Raw(None, None, NotDiverse(c, NumUnique(Column(df, ColumnPosition(df, c).value)))) in r.value)
  {
    if columns == [] then Success([])
    else
      match ColumnPosition(df, columns[0])
      case None => Failure(CheckerFramework.KeyError(columns[0]))
      case Some(k) =>
        match NotDiverseColumns(df, columns[1..])
        case Failure(e) => Failure(e)
        case Success(rest) =>
          var n := NumUnique(Column(df, k));
          Success((if n <= 2 then [Raw(None, None, NotDiverse(columns[0], n))] else []) + rest)
  }

  /** `check_that_y_values_are_diverse`: box, violin and hist plots need more than two distinct values per column. */
  function CheckThatYValuesAreDiverse(df: Frame, kw: Kwargs): (r: ErrorOr<seq<Raw>>)
    ensures kw.kind !in {Some("box"), Some("violin"), Some("hist")} ==> r == Success([])
    ensures kw.kind in {Some("box"), Some("violin"), Some("hist")} && kw.y.None? ==> r == Failure(CheckerFramework.TypeError)
    ensures kw.kind in {Some("box"), Some("violin"), Some("hist")} && kw.y.Some? ==> r == NotDiverseColumns(df, AsList(kw.y.value))
  {
    if kw.kind !in {Some("box"), Some("violin"), Some("hist")} then Success([])
    else match kw.y
      case None => Failure(CheckerFramework.TypeError)
      case Some(a) => NotDiverseColumns(df, AsList(a))
  }

  /** `_get_x_values` of a figure: the `x` column if given, else the index; as a dtype. */
  function XValuesDType(df: Frame, kw: Kwargs): (r: ErrorOr<DType>)
    ensures kw.x.None? ==> r == Success(df.index.dtype)
    ensures kw.x.Some? ==> (r.Failure? <==> ColumnPosition(df, kw.x.value).None?)
    ensures kw.x.Some? && r.Success? ==> r.value == df.columnDtypes[ColumnPosition(df, kw.x.value).value]
  {
    match kw.x
    case None => Success(df.index.dtype)
    case Some(name) =>
      match ColumnPosition(df, name)
      case None => Failure(CheckerFramework.KeyError(name))
      case Some(k) => Success(df.columnDtypes[k])
  }

  /** `check_for_numeric_x_for_line_and_scatter`. */
  function CheckForNumericXForLineAndScatter(df: Frame, kw: Kwargs): (r: ErrorOr<seq<Raw>>)
    ensures kw.kind !in {Some("line"), Some("scatter")} ==> r == Success([])
    ensures kw.kind in {Some("line"), Some("scatter")} && XValuesDType(df, kw).Success? ==>
      r.Success? && (r.value == [] <==> IsNumericDType(XValuesDType(df, kw).value))
      && (r.value != [] ==> r.value == [Raw(None, None, NonNumericX)])
  {
    if kw.kind !in {Some("line"), Some("scatter")} then Success([])
    else match XValuesDType(df, kw)
      case Failure(e) => Failure(e)
      case Success(d) => if IsNumericDType(d) then Success([]) else Success([Raw(None, None, NonNumericX)])
  }
}
