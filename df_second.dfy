/**
 * The content checks of the display-item step: a column holding one value
 * throughout (tables), and odds ratios plotted on a linear axis (figures).
 */
module DfSecond {
  import opened Wrappers
  import opened DfModel
  import opened PyText
  import CheckerFramework
  import DfContent

  type ErrorOr<T> = Result<T, CheckerFramework.PyError>

  const SameValueCategory := "Same value throughout a column"
  const OddsRatioCategory := "Plotting odds ratios"

  /** A column of more than five rows is checked for a repeated single value. */
  const MinRowsForRepetition: nat := 5

  /** A cell `unique()` cannot hash: a nested frame, a list, dict or set, or a tuple holding one. */
  predicate IsUnhashable(c: Cell) {
    match c
    case CNested(_) => true
    case COther(t) => t in {"list", "dict", "set"}
    case CTuple(items) => exists x | x in items :: IsUnhashable(x)
    case _ => false
  }

  /** `len(data.unique()) == 1` with `unique()` succeeding: every cell equals the first. */
  predicate HasSingleValue(data: seq<Cell>) {
    && data != []
    && (forall c | c in data :: !IsUnhashable(c))
    && forall k | 0 <= k < |data| :: data[k] == data[0]
  }

  /**
   * `isinstance(data.iloc[0], (int, float))`: numpy integers and booleans are
   * not Python numbers; the values of a float column are (numpy floats
   * subclass `float`), and so are Python numbers in an object column.
   */
  predicate IsPythonNumber(d: DType, c: Cell) {
    (d == FloatDType || d == ObjectDType) && (c.CInt? || c.CBool? || c.CFloat? || c.CNaN?)
  }

  function NumberValue(c: Cell): real
    requires c.CInt? || c.CBool? || c.CFloat?
  {
    match c
    case CInt(i) => i as real
    case CBool(b) => if b then 1.0 else 0.0
    case CFloat(x) => x
  }

  /** `round(v) == v and v < 10`: a small whole number, which is left alone. */
  predicate IsSmallWholeNumber(v: real) {
    v == v.Floor as real && v < 10.0
  }

  /** The check of column `c`: `round` of a NaN raises `ValueError`. */
  function ColumnRepetition(df: Frame, c: nat): (r: ErrorOr<seq<Raw>>)
    requires c < NumColumns(df)
    ensures r.Failure? ==> r.error == CheckerFramework.ValueError
    ensures r.Success? ==> r.value == [] || r.value == [Raw(Some(SameValueCategory), None, SameValueInColumn(df.columns.labels[c]))]
    ensures r != Success([]) <==>
      && !DfContent.ContainsPValue(Column(df, c))
      && |Column(df, c)| > MinRowsForRepetition && HasSingleValue(Column(df, c))
      && IsPythonNumber(df.columnDtypes[c], Column(df, c)[0])
      && (Column(df, c)[0].CNaN? || !IsSmallWholeNumber(NumberValue(Column(df, c)[0])))
    ensures r.Failure? <==> r != Success([]) && Column(df, c)[0].CNaN?
  {
    var data := Column(df, c);
    if DfContent.ContainsPValue(data) then Success([])
    else if !(|data| > MinRowsForRepetition && HasSingleValue(data)) then Success([])
    else if !IsPythonNumber(df.columnDtypes[c], data[0]) then Success([])
    else if data[0].CNaN? then Failure(CheckerFramework.ValueError)
    else if IsSmallWholeNumber(NumberValue(data[0])) then Success([])
    else Success([Raw(Some(SameValueCategory), None, SameValueInColumn(df.columns.labels[c]))])
  }

  /** Whether column `c` gives an issue without raising. */
  predicate Reported(df: Frame, c: nat)
    requires c < NumColumns(df)
  {
    ColumnRepetition(df, c).Success? && ColumnRepetition(df, c).value != []
  }

  /** The columns from `from` on that give an issue, in column order. */
  function ReportedColumns(df: Frame, from: nat): (r: seq<nat>)
    ensures forall k | 0 <= k < |r| :: from <= r[k] < NumColumns(df) && Reported(df, r[k])
    ensures forall c | from <= c < NumColumns(df) && Reported(df, c) :: c in r
    ensures forall k, l | 0 <= k < l < |r| :: r[k] < r[l]
    decreases NumColumns(df) - from
  {
    if from >= NumColumns(df) then []
    else (if Reported(df, from) then [from] else []) + ReportedColumns(df, from + 1)
  }

  /** The same-value issues of the columns `cols`, in that order. */
  function SameValueIssues(df: Frame, cols: seq<nat>): (r: seq<Raw>)
    requires forall k | 0 <= k < |cols| :: cols[k] < |df.columns.labels|
    ensures |r| == |cols|
    ensures forall k | 0 <= k < |cols| ::
      r[k] == Raw(Some(SameValueCategory), None, SameValueInColumn(df.columns.labels[cols[k]]))
  {
    if cols == [] then []
    else [Raw(Some(SameValueCategory), None, SameValueInColumn(df.columns.labels[cols[0]]))] + SameValueIssues(df, cols[1..])
  }

  /** The columns from `from` on; the first column that raises ends the check. */
  function RepetitionFrom(df: Frame, from: nat): (r: ErrorOr<seq<Raw>>)
    ensures r.Failure? <==> exists c | from <= c < NumColumns(df) :: ColumnRepetition(df, c).Failure?
    ensures r.Success? ==> r.value == SameValueIssues(df, ReportedColumns(df, from))
    decreases NumColumns(df) - from
  {
    if from >= NumColumns(df) then Success([])
    else
      match ColumnRepetition(df, from)
      case Failure(e) => Failure(e)
      case Success(here) =>
        match RepetitionFrom(df, from + 1)
        case Failure(e) => Failure(e)
        case Success(rest) =>
          var first := if Reported(df, from) then [from] else [];
          assert ReportedColumns(df, from) == first + ReportedColumns(df, from + 1);
          SameValueIssuesAppend(df, first, ReportedColumns(df, from + 1));
          Success(here + rest)
  }

  /** A completed check reports exactly the columns that give an issue. */
  lemma RepetitionMembers(df: Frame, from: nat)
    requires RepetitionFrom(df, from).Success?
    ensures var r := RepetitionFrom(df, from).value;
      && (forall i | i in r :: exists c | from <= c < NumColumns(df) :: ColumnRepetition(df, c) == Success([i]))
      && (forall c | from <= c < NumColumns(df) && ColumnRepetition(df, c).Success? && ColumnRepetition(df, c).value != [] ::
            ColumnRepetition(df, c).value[0] in r)
  {
    var r := RepetitionFrom(df, from).value;
    var cols := ReportedColumns(df, from);
    forall i | i in r ensures exists c | from <= c < NumColumns(df) :: ColumnRepetition(df, c) == Success([i]) {
      var k :| 0 <= k < |r| && r[k] == i;
      assert ColumnRepetition(df, cols[k]) == Success([i]);
    }
    forall c | from <= c < NumColumns(df) && ColumnRepetition(df, c).Success? && ColumnRepetition(df, c).value != []
      ensures ColumnRepetition(df, c).value[0] in r
    {
      assert Reported(df, c);
      var k :| 0 <= k < |cols| && cols[k] == c;
      assert r[k] == ColumnRepetition(df, c).value[0];
    }
  }

  /** The issues of a concatenation of columns are the concatenation of their issues. */
  lemma {:induction false} SameValueIssuesAppend(df: Frame, a: seq<nat>, b: seq<nat>)
    requires forall k | 0 <= k < |a| :: a[k] < |df.columns.labels|
    requires forall k | 0 <= k < |b| :: b[k] < |df.columns.labels|
    ensures SameValueIssues(df, a + b) == SameValueIssues(df, a) + SameValueIssues(df, b)
  {
    if a != [] {
      assert (a + b)[1..] == a[1..] + b;
      SameValueIssuesAppend(df, a[1..], b);
    }
  }

  /** `check_for_repetitive_value_in_column`: one issue per column holding a single non-trivial value. */
  function CheckForRepetitiveValueInColumn(df: Frame): ErrorOr<seq<Raw>> {
    RepetitionFrom(df, 0)
  }

  /** A column of numpy integers or booleans is never reported, whatever it holds. */
  lemma IntegerColumnNotReported(df: Frame, c: nat)
    requires c < NumColumns(df) && df.columnDtypes[c] in {IntDType, BoolDType}
    ensures ColumnRepetition(df, c) == Success([])
  {
  }

  /** A float column that holds 12.5 in each of its six or more rows is reported. */
  lemma RepeatedFractionReported(df: Frame, c: nat)
    requires c < NumColumns(df) && NumRows(df) > MinRowsForRepetition && df.columnDtypes[c] == FloatDType
    requires forall i | 0 <= i < NumRows(df) :: df.rows[i][c] == CFloat(12.5)
    ensures ColumnRepetition(df, c) == Success([Raw(Some(SameValueCategory), None, SameValueInColumn(df.columns.labels[c]))])
  {
    var data := Column(df, c);
    assert data[0] == CFloat(12.5);
    assert !DfContent.ContainsPValue(data);
    assert 12.5 != (12.5).Floor as real;
  }

  // ---------------------------------------------------------------- odds ratios

  /**
   * The axis label of `axis` mentions odds ratios while the axis is not on a
   * log scale: `odds ratio` in any case, or the capitalised `OR`. At most
   * one issue per axis.
   */
  function OddsRatioIssue(axis: string, labelArg: Option<string>, isLog: Option<bool>): (r: seq<Raw>)
    ensures |r| <= 1
    ensures r != [] <==>
      labelArg.Some? && isLog != Some(true)
      && (Contains(Lower(labelArg.value), "odds ratio") || Contains(labelArg.value, "OR"))
    ensures r != [] ==>
      r[0].category == Some(OddsRatioCategory) && r[0].forgiveAfter == Some(1)
      && r[0].detail == OddsRatioLabel(axis, if Contains(Lower(labelArg.value), "odds ratio") then "odds ratio" else "OR")
  {
    if labelArg.Some? && isLog != Some(true) then
      if Contains(Lower(labelArg.value), "odds ratio") then [Raw(Some(OddsRatioCategory), Some(1), OddsRatioLabel(axis, "odds ratio"))]
      else if Contains(labelArg.value, "OR") then [Raw(Some(OddsRatioCategory), Some(1), OddsRatioLabel(axis, "OR"))]
      else []
    else []
  }

  /** An axis label that mentions odds ratios on an axis that is not on a log scale. */
  predicate MentionsOddsRatio(labelArg: Option<string>, isLog: Option<bool>) {
    labelArg.Some? && isLog != Some(true)
    && (Contains(Lower(labelArg.value), "odds ratio") || Contains(labelArg.value, "OR"))
  }

  /** The term an issue names: `odds ratio` when the label holds it in any case, `OR` otherwise. */
  function OddsRatioTerm(text: string): string {
    if Contains(Lower(text), "odds ratio") then "odds ratio" else "OR"
  }

  /** `check_log_scale_for_odds_ratios`: the x axis, then the y axis. */
  function CheckLogScaleForOddsRatios(kw: Kwargs): (r: seq<Raw>)
    ensures |r| <= 2
    ensures kw.logx == Some(true) && kw.logy == Some(true) ==> r == []
    ensures r ==
      (if MentionsOddsRatio(kw.xlabel, kw.logx)
       then [Raw(Some(OddsRatioCategory), Some(1), OddsRatioLabel("x", OddsRatioTerm(kw.xlabel.value)))] else [])
      + (if MentionsOddsRatio(kw.ylabel, kw.logy)
         then [Raw(Some(OddsRatioCategory), Some(1), OddsRatioLabel("y", OddsRatioTerm(kw.ylabel.value)))] else [])
  {
    OddsRatioIssue("x", kw.xlabel, kw.logx) + OddsRatioIssue("y", kw.ylabel, kw.logy)
  }

  /** "Odds Ratio" is recognised in any case, "or" only as the capital word. */
  lemma OddsRatioExamples()
    ensures OddsRatioIssue("y", Some("Odds Ratio"), None) == [Raw(Some(OddsRatioCategory), Some(1), OddsRatioLabel("y", "odds ratio"))]
    ensures OddsRatioIssue("x", Some("OR (95% CI)"), Some(false)) == [Raw(Some(OddsRatioCategory), Some(1), OddsRatioLabel("x", "OR"))]
    ensures OddsRatioIssue("x", Some("OR"), Some(true)) == []
  {
    var s := "OR (95% CI)";
    assert OccursAt(s, "OR", 0);
    assert !Contains(Lower(s), "odds ratio") by {
      assert |Lower(s)| == 11;
      forall i | 0 <= i <= |Lower(s)| - 10 ensures !OccursAt(Lower(s), "odds ratio", i) {
        assert Lower(s)[i] != 'o' || Lower(s)[i + 1] != 'd';
      }
    }
    var t := "Odds Ratio";
    assert Lower(t) == "odds ratio";
    assert OccursAt(Lower(t), "odds ratio", 0);
  }
}
