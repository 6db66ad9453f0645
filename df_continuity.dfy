/**
 * The file-continuity checker: the display-item step must format the frame
 * it loaded, under the loaded file's name with `_formatted` appended.
 */
module DfContinuity {
  import opened Wrappers
  import opened DfModel
  import CheckerFramework

  type ErrorOr<T> = Result<T, CheckerFramework.PyError>

  const FormattedSuffix := "_formatted"

  /**
   * `check_for_file_continuity`: a frame that is not the loaded one is an
   * issue; otherwise the filename must be the last recorded filename plus
   * `_formatted`. An empty record raises `IndexError`.
   */
  function CheckForFileContinuity(call: DfCall): (r: ErrorOr<seq<Raw>>)
    ensures call.df.extraInfo.None? ==> r == Success([Raw(None, None, NotLoadedDf)])
    ensures call.df.extraInfo == Some([]) ==> r == Failure(CheckerFramework.IndexError)
    ensures call.df.extraInfo.Some? && call.df.extraInfo.value != [] ==>
      var previous := call.df.extraInfo.value[|call.df.extraInfo.value| - 1];
      && r.Success?
      && (r.value == [] <==> call.filename == previous + FormattedSuffix)
      && (r.value != [] ==> r.value == [Raw(None, None, WrongContinuityFilename(previous, previous + FormattedSuffix))])
  {
    match call.df.extraInfo
    case None => Success([Raw(None, None, NotLoadedDf)])
    case Some(info) =>
      if info == [] then Failure(CheckerFramework.IndexError)
      else
        var previous := info[|info| - 1];
        var expected := previous + FormattedSuffix;
        if call.filename != expected then Success([Raw(None, None, WrongContinuityFilename(previous, expected))])
        else Success([])
  }

  /** Formatting the loaded `df_x` as `df_x_formatted` passes, whatever came before. */
  lemma FormattedNamePasses(call: DfCall, earlier: seq<string>, name: string)
    requires call.df.extraInfo == Some(earlier + [name]) && call.filename == name + "_formatted"
    ensures CheckForFileContinuity(call) == Success([])
  {
    var info := earlier + [name];
    assert info[|info| - 1] == name;
  }
}
