/**
 * The issue record that every checker of the pipeline produces. The
 * wording of an issue (its `issue` and `instructions` text) is not part of
 * the model; what a checker reports is carried by a `detail` value whose
 * type each checker family chooses.
 */
module RunIssues {
  import opened Wrappers

  /** The code problems the modelled checkers report. */
  datatype CodeProblem =
    | OutputFileCallingSyntax
    | OutputFileContentA
    | OutputFileContentLevelA
    | OutputFileContentLevelC

  /** One reported issue. `forgiveAfter` is the number of repetitions after which it is waived. */
  datatype RunIssue<D> = RunIssue(
    category: Option<string>,
    item: Option<string>,
    codeProblem: Option<CodeProblem>,
    forgiveAfter: Option<nat>,
    detail: D)
}
