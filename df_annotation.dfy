/**
 * The annotation checker: forbidden characters in labels, abbreviations
 * missing from the glossary, glossary keys that are not labels, and the
 * caption and note rules.
 */
module DfAnnotation {
  import opened Wrappers
  import opened DfModel
  import opened PyText
  import CheckerFramework
  import StringOrder

  const UnallowedCharsCategory := "The df row/column labels contain un-allowed characters"
  const GlossaryCategory := "Displayitem glossary"
  const CaptionCategory := "Problem with displayitem caption"

  /** The characters labels may not contain, in the order they are checked. */
  const UnallowedChars: seq<char> := ['_', '^', '{', '}']

  /** A width below this leaves room to spell abbreviations out. */
  const NarrowWidth: real := 4.0 / 5.0

  /** The glossary key that needs no matching label. */
  const SignificanceKey := "Significance"

  // ---------------------------------------------------------------- labels

  /** The string labels of an axis; a MultiIndex entry contributes its string parts. */
  function StringLabels(labels: seq<Label>): (r: seq<string>)
    ensures forall s | LStr(s) in labels :: s in r
  {
    if labels == [] then []
    else
      (match labels[0]
       case LStr(s) => [s]
       case LTuple(parts) => StringLabels(parts)
       case _ => [])
      + StringLabels(labels[1..])
  }

  function PresentNames(names: seq<Option<string>>): (r: seq<string>)
    ensures forall n | Some(n) in names :: n in r
    ensures forall n | n in r :: Some(n) in names
  {
    if names == [] then []
    else (if names[0].Some? then [names[0].value] else []) + PresentNames(names[1..])
  }

  /** `extract_df_row_labels` / `extract_df_column_labels` with `string_only=True`: the string labels and, with the title, the level names. */
  function AxisLabels(axis: Axis, withTitle: bool): (r: seq<string>)
    ensures forall s | LStr(s) in axis.labels :: s in r
    ensures withTitle ==> forall n | Some(n) in axis.names :: n in r
  {
    StringLabels(axis.labels) + (if withTitle then PresentNames(axis.names) else [])
  }

  /** `extract_df_axes_labels`: the row labels, then the column labels. */
  function AllLabels(df: Frame, withTitle: bool): seq<string> {
    AxisLabels(df.index, withTitle) + AxisLabels(df.columns, withTitle)
  }

  function SideAxis(df: Frame, side: Side): Axis {
    if side == RowSide then df.index else df.columns
  }

  // ---------------------------------------------------------------- characters

  function WithChar(labels: seq<string>, ch: char): (r: seq<string>)
    ensures forall l | l in r :: l in labels && ch in l
    ensures forall l | l in labels && ch in l :: l in r
  {
    if labels == [] then []
    else (if ch in labels[0] then [labels[0]] else []) + WithChar(labels[1..], ch)
  }

  /** The labels of one side containing `ch`, sorted; one issue if there are any. */
  function CharIssue(df: Frame, ch: char, side: Side): (r: seq<Raw>)
    ensures |r| <= 1
    ensures r != [] <==> exists l | l in AxisLabels(SideAxis(df, side), true) :: ch in l
    ensures r != [] ==>
      r[0].detail.UnallowedCharacter?
      && var bad := r[0].detail.labels;
         && r[0] == Raw(Some(UnallowedCharsCategory), None, UnallowedCharacter(ch, side, bad))
         && StringOrder.Sorted(bad)
         && forall l :: l in bad <==> l in AxisLabels(SideAxis(df, side), true) && ch in l
  {
    var bad := WithChar(AxisLabels(SideAxis(df, side), true), ch);
    StringOrder.SortSameElements(bad);
    if bad == [] then []
    else
      assert bad[0] in bad;
      [Raw(Some(UnallowedCharsCategory), None, UnallowedCharacter(ch, side, StringOrder.Sort(bad)))]
  }

  /** No row or column label (titles included) contains `ch`. */
  predicate FreeOf(df: Frame, ch: char) {
    forall l | l in AllLabels(df, true) :: ch !in l
  }

  function CharIssuesFrom(df: Frame, chars: seq<char>): (r: seq<Raw>)
    ensures r == [] <==> forall ch | ch in chars :: FreeOf(df, ch)
    ensures forall x | x in r :: exists ch, side | ch in chars :: CharIssue(df, ch, side) == [x]
    ensures forall ch, side | ch in chars && CharIssue(df, ch, side) != [] :: CharIssue(df, ch, side)[0] in r
    ensures |r| <= 2 * |chars|
  {
    if chars == [] then []
    else
      var row := CharIssue(df, chars[0], RowSide);
      var column := CharIssue(df, chars[0], ColumnSide);
      var rest := CharIssuesFrom(df, chars[1..]);
      CharIssuesFree(df, chars[0]);
      CharIssuesJoin(df, chars, row, column, rest);
      row + column + rest
  }

  /** The issues of the first character, on both sides, followed by those of the others. */
  lemma CharIssuesJoin(df: Frame, chars: seq<char>, row: seq<Raw>, column: seq<Raw>, rest: seq<Raw>)
    requires chars != []
    requires row == CharIssue(df, chars[0], RowSide) && column == CharIssue(df, chars[0], ColumnSide)
    requires forall x | x in rest :: exists ch, side | ch in chars[1..] :: CharIssue(df, ch, side) == [x]
    requires forall ch, side | ch in chars[1..] && CharIssue(df, ch, side) != [] :: CharIssue(df, ch, side)[0] in rest
    ensures forall x | x in row + column + rest :: exists ch, side | ch in chars :: CharIssue(df, ch, side) == [x]
    ensures forall ch, side | ch in chars && CharIssue(df, ch, side) != [] :: CharIssue(df, ch, side)[0] in row + column + rest
  {
    forall x | x in row + column + rest ensures exists ch, side | ch in chars :: CharIssue(df, ch, side) == [x] {
      if x in row {
        assert CharIssue(df, chars[0], RowSide) == [x];
      } else if x in column {
        assert CharIssue(df, chars[0], ColumnSide) == [x];
      } else {
        var ch, side :| ch in chars[1..] && CharIssue(df, ch, side) == [x];
        assert ch in chars;
      }
    }
    forall ch, side | ch in chars && CharIssue(df, ch, side) != [] ensures CharIssue(df, ch, side)[0] in row + column + rest {
      if ch != chars[0] {
        assert ch in chars[1..];
      } else if side == RowSide {
        assert CharIssue(df, ch, side)[0] in row;
      } else {
        assert CharIssue(df, ch, side)[0] in column;
      }
    }
  }

  /** Neither side reports `ch` exactly when no label contains it. */
  lemma CharIssuesFree(df: Frame, ch: char)
    ensures CharIssue(df, ch, RowSide) == [] && CharIssue(df, ch, ColumnSide) == [] <==> FreeOf(df, ch)
  {
    assert forall l :: l in AllLabels(df, true) <==> l in AxisLabels(df.index, true) || l in AxisLabels(df.columns, true);
  }

  /** `check_for_unallowed_characters_in_labels`: per character, the row labels, then the column labels. */
  function CheckForUnallowedCharactersInLabels(df: Frame): (r: seq<Raw>)
    ensures r == [] <==> forall ch | ch in UnallowedChars :: FreeOf(df, ch)
    ensures forall x | x in r :: exists ch, side | ch in UnallowedChars :: CharIssue(df, ch, side) == [x]
    ensures forall ch, side | ch in UnallowedChars && CharIssue(df, ch, side) != [] :: CharIssue(df, ch, side)[0] in r
    ensures |r| <= 2 * |UnallowedChars|
  {
    CharIssuesFrom(df, UnallowedChars)
  }

  /** A label like `p_value` among the columns is reported, whatever else the frame holds. */
  lemma UnderscoreLabelReported(df: Frame, l: string)
    requires LStr(l) in df.columns.labels && '_' in l
    ensures CheckForUnallowedCharactersInLabels(df) != []
  {
    assert l in AllLabels(df, true);
    assert '_' in UnallowedChars;
  }

  // ---------------------------------------------------------------- glossary

  /** `is_narrow`: the stored `width` is a float below 0.8. */
  predicate IsNarrow(results: CheckerFramework.Results) {
    "width" in results && results["width"].FloatValue? && results["width"].x < NarrowWidth
  }

  function UnknownAbbreviations(labels: seq<string>, isUnknown: string -> bool, keys: seq<string>): (r: seq<string>)
    ensures forall l | l in r :: l in labels && isUnknown(l) && l !in keys
    ensures forall l | l in labels && isUnknown(l) && l !in keys :: l in r
  {
    if labels == [] then []
    else
      (if isUnknown(labels[0]) && labels[0] !in keys then [labels[0]] else [])
      + UnknownAbbreviations(labels[1..], isUnknown, keys)
  }

  /**
   * `check_for_abbreviations_not_in_glossary`: the abbreviated labels (without
   * titles) that are not glossary keys, sorted; the issue also suggests
   * spelling them out when the display item is narrow.
   */
  function CheckForAbbreviationsNotInGlossary(df: Frame, kw: Kwargs, env: Env, results: CheckerFramework.Results): (r: seq<Raw>)
    ensures |r| <= 1
    ensures var keys := kw.glossary.GetOr([]);
      r == [] <==> forall l | l in AllLabels(df, false) :: env.isUnknownAbbreviation(l) ==> l in keys
    ensures r != [] ==>
      r[0].detail.AbbreviationsNotInGlossary?
      && var missing := r[0].detail.labels;
         && r[0] == Raw(Some(GlossaryCategory), None, AbbreviationsNotInGlossary(missing, IsNarrow(results)))
         && StringOrder.Sorted(missing)
         && forall l :: l in missing <==> l in AllLabels(df, false) && env.isUnknownAbbreviation(l) && l !in kw.glossary.GetOr([])
  {
    var missing := UnknownAbbreviations(AllLabels(df, false), env.isUnknownAbbreviation, kw.glossary.GetOr([]));
    StringOrder.SortSameElements(missing);
    if missing == [] then []
    else
      assert missing[0] in missing;
      [Raw(Some(GlossaryCategory), None, AbbreviationsNotInGlossary(StringOrder.Sort(missing), IsNarrow(results)))]
  }

  function KeysNotIn(keys: seq<string>, labels: seq<string>): (r: seq<string>)
    ensures forall k | k in r :: k in keys && k !in labels && k != SignificanceKey
    ensures forall k | k in keys && k !in labels && k != SignificanceKey :: k in r
  {
    if keys == [] then []
    else (if keys[0] !in labels && keys[0] != SignificanceKey then [keys[0]] else []) + KeysNotIn(keys[1..], labels)
  }

  /** `check_for_glossary_labels_not_in_df`: a missing or empty glossary is not checked. */
  function CheckForGlossaryLabelsNotInDf(df: Frame, kw: Kwargs): (r: seq<Raw>)
    ensures |r| <= 1
    ensures r == [] <==>
      kw.glossary.None? || forall k | k in kw.glossary.value :: k in AllLabels(df, true) || k == SignificanceKey
    ensures r != [] ==>
      r == [Raw(Some(GlossaryCategory), None, GlossaryLabelsNotInDf(KeysNotIn(kw.glossary.value, AllLabels(df, true))))]
  {
    if kw.glossary.None? || kw.glossary.value == [] then []
    else
      var missing := KeysNotIn(kw.glossary.value, AllLabels(df, true));
      if missing == [] then []
      else
        assert missing[0] in missing;
        [Raw(Some(GlossaryCategory), None, GlossaryLabelsNotInDf(missing))]
  }

  // ---------------------------------------------------------------- caption and note

  /** `re.search(r'<.*\>', text)`: a `<`, later a `>`, and no line break between them. */
  predicate HasPlaceholderText(text: string) {
    exists i, j | 0 <= i < j < |text| :: text[i] == '<' && text[j] == '>' && forall k | i < k < j :: text[k] != '\n'
  }

  function CaptionIssue(p: CaptionProblem): Raw {
    Raw(Some(CaptionCategory), None, Caption(p))
  }

  /**
   * `_check_caption_or_note`: a missing text is an issue only when it is
   * required; a present one gets one issue for each rule it breaks, in the
   * order leading `Figure`, leading `Table`, `...`, `<...>`.
   */
  function CaptionOrNoteIssues(text: Option<string>, item: string, isRequired: bool): (r: seq<Raw>)
    ensures text.None? ==> r == (if isRequired then [CaptionIssue(Missing(item))] else [])
    ensures text.Some? ==>
      var t := text.value;
      && (CaptionIssue(ForbiddenStart(item, "Figure")) in r <==> StartsWith(t, "Figure"))
      && (CaptionIssue(ForbiddenStart(item, "Table")) in r <==> StartsWith(t, "Table"))
      && (CaptionIssue(HasEllipsis(item)) in r <==> Contains(t, "..."))
      && (CaptionIssue(HasPlaceholder(item)) in r <==> HasPlaceholderText(t))
      && |r| == (if StartsWith(t, "Figure") then 1 else 0) + (if StartsWith(t, "Table") then 1 else 0)
                + (if Contains(t, "...") then 1 else 0) + (if HasPlaceholderText(t) then 1 else 0)
  {
    match text
    case None => if isRequired then [CaptionIssue(Missing(item))] else []
    case Some(t) =>
      (if StartsWith(t, "Figure") then [CaptionIssue(ForbiddenStart(item, "Figure"))] else [])
      + (if StartsWith(t, "Table") then [CaptionIssue(ForbiddenStart(item, "Table"))] else [])
      + (if Contains(t, "...") then [CaptionIssue(HasEllipsis(item))] else [])
      + (if HasPlaceholderText(t) then [CaptionIssue(HasPlaceholder(item))] else [])
  }

  /** `check_note`: the note is optional. */
  function CheckNote(kw: Kwargs): (r: seq<Raw>)
    ensures kw.note.None? ==> r == []
  {
    CaptionOrNoteIssues(kw.note, "note", false)
  }

  /** `check_caption`: the caption is required. */
  function CheckCaption(kw: Kwargs): (r: seq<Raw>)
    ensures kw.caption.None? ==> r == [CaptionIssue(Missing("caption"))]
  {
    CaptionOrNoteIssues(kw.caption, "caption", true)
  }

  /** `check_note_is_different_than_caption`: case-blind containment in either direction is an issue. */
  function CheckNoteIsDifferentThanCaption(kw: Kwargs): (r: seq<Raw>)
    ensures r == [] || r == [CaptionIssue(NoteRepeatsCaption)]
    ensures r != [] <==>
      kw.note.Some? && kw.caption.Some?
      && (Contains(Lower(kw.caption.value), Lower(kw.note.value)) || Contains(Lower(kw.note.value), Lower(kw.caption.value)))
  {
    if kw.note.Some? && kw.caption.Some?
       && (Contains(Lower(kw.caption.value), Lower(kw.note.value)) || Contains(Lower(kw.note.value), Lower(kw.caption.value)))
    then [CaptionIssue(NoteRepeatsCaption)]
    else []
  }

  /** A note that equals the caption up to letter case is reported. */
  lemma NoteEqualToCaptionReported(kw: Kwargs)
    requires kw.note.Some? && kw.caption.Some? && Lower(kw.note.value) == Lower(kw.caption.value)
    ensures CheckNoteIsDifferentThanCaption(kw) == [CaptionIssue(NoteRepeatsCaption)]
  {
    var c := Lower(kw.caption.value);
    assert OccursAt(c, Lower(kw.note.value), 0);
  }

  /** An empty note is contained in every caption, so it is always reported. */
  lemma EmptyNoteReported(kw: Kwargs)
    requires kw.note == Some([]) && kw.caption.Some?
    ensures CheckNoteIsDifferentThanCaption(kw) != []
  {
    assert OccursAt(Lower(kw.caption.value), Lower([]), 0);
  }

  /** A `<` and a `>` on different lines are not a placeholder. */
  lemma PlaceholderExamples()
    ensures HasPlaceholderText("n = <N>")
    ensures !HasPlaceholderText("a <\n b >")
    ensures !HasPlaceholderText("x > y < z")
  {
    var s := "n = <N>";
    assert s[4] == '<' && s[6] == '>';
    var t := "a <\n b >";
    forall i, j | 0 <= i < j < |t| && t[i] == '<' && t[j] == '>'
      ensures exists k | i < k < j :: t[k] == '\n'
    {
      assert i == 2 && j == 7 && t[3] == '\n';
    }
    var u := "x > y < z";
    forall i, j | 0 <= i < j < |u| && u[i] == '<'
      ensures u[j] != '>'
    {
      assert i == 6;
    }
  }

  /** A caption starting with "Table" and holding "..." breaks two rules. */
  lemma CaptionIssueCount()
    ensures |CheckCaption(Kwargs(None, None, false, None, None, None, None, None, None, None, None, None,
                                 None, None, None, None, Some("Table 1: age ..."), None, None))| == 2
  {
    var t := "Table 1: age ...";
    assert t[..6][0] != "Figure"[0];
    assert StartsWith(t, "Table") && !StartsWith(t, "Figure");
    assert OccursAt(t, "...", 13);
    assert !HasPlaceholderText(t) by {
      forall i | 0 <= i < |t| ensures t[i] != '<' { }
    }
  }
}
