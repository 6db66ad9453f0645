/**
 * The call-syntax checks of `df_to_latex` / `df_to_figure`: checks that do
 * not depend on the content of the frame (apart from its column names).
 */
module DfSyntax {
  import opened Wrappers
  import opened DfModel

  /** `\w` restricted to ASCII: letters, digits and the underscore. */
  predicate IsWordChar(c: char) {
    ('a' <= c <= 'z') || ('A' <= c <= 'Z') || ('0' <= c <= '9') || c == '_'
  }

  predicate AllWord(s: string) {
    forall k | 0 <= k < |s| :: IsWordChar(s[k])
  }

  /** `re.match(r'^df_\w+$', s)`; `$` also matches just before a final newline. */
  predicate MatchesDfName(s: string) {
    && |s| >= 3 && s[..3] == "df_"
    && var body := if s[|s| - 1] == '\n' then s[3..|s| - 1] else s[3..];
       body != [] && AllWord(body)
  }

  /** The filenames the pattern accepts: `df_`, one or more word characters, and at most one final newline. */
  lemma MatchesDfNameIff(s: string)
    ensures MatchesDfName(s) <==>
      exists w :: AllWord(w) && w != [] && (s == "df_" + w || s == "df_" + w + "\n")
  {
    if MatchesDfName(s) {
      if s[|s| - 1] == '\n' {
        var w := s[3..|s| - 1];
        assert s[|s| - 1..] == "\n";
        assert s == s[..3] + w + s[|s| - 1..];
      } else {
        var w := s[3..];
        assert s == s[..3] + w;
      }
    }
    if exists w :: AllWord(w) && w != [] && (s == "df_" + w || s == "df_" + w + "\n") {
      var w :| AllWord(w) && w != [] && (s == "df_" + w || s == "df_" + w + "\n");
      assert s[..3] == "df_";
      if s == "df_" + w {
        assert s[|s| - 1] == w[|w| - 1];
        assert s[3..] == w;
      } else {
        assert s[3..|s| - 1] == w;
      }
    }
  }

  lemma DfNameExamples()
    ensures MatchesDfName("df_age_by_sex") && MatchesDfName("df_1\n")
    ensures !MatchesDfName("df_") && !MatchesDfName("table_1") && !MatchesDfName("df_a b")
    ensures !MatchesDfName("df_a\n\n")
  {
    var s := "df_a b";
    assert s[3..][1] == ' ';
    var t := "df_a\n\n";
    assert t[|t| - 1] == '\n' && t[3..|t| - 1][1] == '\n';
  }

  /** `check_filename`: one issue exactly when the filename does not have the form `df_<alphanumeric>`. */
  function CheckFilename(filename: string): (r: seq<Raw>)
    ensures |r| <= 1 && (r == [] <==> MatchesDfName(filename))
    ensures r != [] ==> r[0] == Raw(None, None, BadFilename(filename))
  {
    if MatchesDfName(filename) then [] else [Raw(None, None, BadFilename(filename))]
  }

  /** `check_no_label`: one issue exactly when a non-empty `label` is given. */
  function CheckNoLabel(kw: Kwargs): (r: seq<Raw>)
    ensures r == [] <==> kw.labelArg.None? || kw.labelArg.value == []
    ensures r != [] ==> r == [Raw(None, None, LabelArgUsed)]
  {
    if kw.labelArg.Some? && kw.labelArg.value != [] then [Raw(None, None, LabelArgUsed)] else []
  }

  /** `check_that_index_is_true`: one issue exactly when the table is created with `index=False`. */
  function CheckThatIndexIsTrue(kind: CheckerKind, kw: Kwargs): (r: seq<Raw>)
    ensures !IsFigure(kind) ==> (r == [] <==> kw.index != Some(false))
    ensures r != [] ==> r == [Raw(None, None, IndexIsFalse)]
  {
    if !UsesIndex(kind, kw) then [Raw(None, None, IndexIsFalse)] else []
  }

  /** `check_column_arg_is_not_used`. */
  function CheckColumnArgIsNotUsed(kw: Kwargs): (r: seq<Raw>)
    ensures r == [] <==> !kw.hasColumnsArg
    ensures r != [] ==> r == [Raw(None, None, ColumnsArgUsed)]
  {
    if kw.hasColumnsArg then [Raw(None, None, ColumnsArgUsed)] else []
  }

  /** `check_kind_arg`: the plot kind must be given and be one of the allowed kinds. */
  function CheckKindArg(kw: Kwargs, allowedPlotKinds: seq<string>): (r: seq<Raw>)
    ensures r == [] <==> kw.kind.Some? && kw.kind.value in allowedPlotKinds
    ensures kw.kind.None? ==> r == [Raw(None, None, KindNotSpecified)]
    ensures kw.kind.Some? && kw.kind.value !in allowedPlotKinds ==> r == [Raw(None, None, KindNotSupported(kw.kind.value))]
  {
    match kw.kind
    case None => [Raw(None, None, KindNotSpecified)]
    case Some(k) => if k in allowedPlotKinds then [] else [Raw(None, None, KindNotSupported(k))]
  }

  /** `check_y_arg`. */
  function CheckYArg(kw: Kwargs): (r: seq<Raw>)
    ensures r == [] <==> kw.y.Some?
    ensures r != [] ==> r == [Raw(None, None, NoYValues)]
  {
    if kw.y.None? then [Raw(None, None, NoYValues)] else []
  }

  /** `check_yerr_arg`: error bars are to be given as confidence intervals instead. */
  function CheckYerrArg(kw: Kwargs): (r: seq<Raw>)
    ensures r == [] <==> kw.yerr.None?
    ensures r != [] ==> r == [Raw(None, None, YerrUsed)]
  {
    if kw.yerr.Some? then [Raw(None, None, YerrUsed)] else []
  }

  /**
   * The eight arguments `check_that_specified_columns_exist` inspects, with
   * their names: `x`, `xerr`, `x_ci`, `x_p_value`, then the same for `y`.
   * The `xerr` property reads the `yerr` key, so `xerr` stands for `yerr`.
   */
  function XyArguments(kw: Kwargs): (r: seq<(string, Option<Arg>)>)
    ensures |r| == 8 && r[1] == ("xerr", kw.yerr) && r[5] == ("yerr", kw.yerr)
  {
    [("x", if kw.x.Some? then Some(One(kw.x.value)) else None), ("xerr", kw.yerr), ("x_ci", kw.xCi),
     ("x_p_value", kw.xPValue), ("y", kw.y), ("yerr", kw.yerr), ("y_ci", kw.yCi), ("y_p_value", kw.yPValue)]
  }

  /** The names among `names` that are not column labels of the frame, in order. */
  function MissingNames(df: Frame, names: seq<string>): (r: seq<string>)
    ensures forall c | c in r :: c in names && LStr(c) !in df.columns.labels
    ensures forall c | c in names && LStr(c) !in df.columns.labels :: c in r
  {
    if names == [] then []
    else (if LStr(names[0]) in df.columns.labels then [] else [names[0]]) + MissingNames(df, names[1..])
  }

  /** The argument is given and names at least one column the frame does not have. */
  predicate ReportsMissing(df: Frame, arg: (string, Option<Arg>)) {
    arg.1.Some? && MissingNames(df, AsList(arg.1.value)) != []
  }

  function MissingIssue(df: Frame, arg: (string, Option<Arg>)): Raw
    requires ReportsMissing(df, arg)
  {
    Raw(None, None, MissingColumns(arg.0, MissingNames(df, AsList(arg.1.value))))
  }

  /** One issue per given argument that names columns the frame does not have, in argument order. */
  function MissingColumnIssues(df: Frame, args: seq<(string, Option<Arg>)>): (r: seq<Raw>)
    ensures forall i | i in r :: exists a | a in args && ReportsMissing(df, a) :: i == MissingIssue(df, a)
    ensures forall a | a in args && ReportsMissing(df, a) :: MissingIssue(df, a) in r
    ensures r == [] <==> forall a | a in args :: !ReportsMissing(df, a)
  {
    if args == [] then []
    else (if ReportsMissing(df, args[0]) then [MissingIssue(df, args[0])] else []) + MissingColumnIssues(df, args[1..])
  }

  /** `check_that_specified_columns_exist`. */
  function CheckThatSpecifiedColumnsExist(df: Frame, kw: Kwargs): seq<Raw> {
    MissingColumnIssues(df, XyArguments(kw))
  }

  /**
   * Because `xerr` reads the `yerr` key, a `yerr` argument that names a
   * missing column is reported twice, once as `xerr` and once as `yerr`.
   */
  lemma YerrReportedTwice(df: Frame, kw: Kwargs)
    requires kw.yerr.Some? && MissingNames(df, AsList(kw.yerr.value)) != []
    ensures var missing := MissingNames(df, AsList(kw.yerr.value));
      && Raw(None, None, MissingColumns("xerr", missing)) in CheckThatSpecifiedColumnsExist(df, kw)
      && Raw(None, None, MissingColumns("yerr", missing)) in CheckThatSpecifiedColumnsExist(df, kw)
  {
    var args := XyArguments(kw);
    assert args[1] in args && ReportsMissing(df, args[1]);
    assert args[5] in args && ReportsMissing(df, args[5]);
  }

  /** When every named column exists, the check reports nothing. */
  lemma ExistingColumnsNotReported(df: Frame, kw: Kwargs)
    requires forall a | a in XyArguments(kw) && a.1.Some? :: forall c | c in AsList(a.1.value) :: LStr(c) in df.columns.labels
    ensures CheckThatSpecifiedColumnsExist(df, kw) == []
  {
    forall a | a in XyArguments(kw) && a.1.Some?
      ensures MissingNames(df, AsList(a.1.value)) == []
    {
      MissingNamesEmpty(df, AsList(a.1.value));
    }
  }

  lemma {:induction false} MissingNamesEmpty(df: Frame, names: seq<string>)
    requires forall c | c in names :: LStr(c) in df.columns.labels
    ensures MissingNames(df, names) == []
  {
    if names != [] {
      MissingNamesEmpty(df, names[1..]);
    }
  }
}
