# Checks of generated-code output: a Dafny model

This project models three parts of the data-to-paper pipeline, in which a language model writes analysis code whose output is then checked:

- **The df checkers.** These are the rules applied to every `df_to_latex` / `df_to_figure` call that generated code makes. They are grouped into checker classes:
  - call syntax;
  - frame content;
  - pdflatex compilation width;
  - second-step content;
  - annotation (labels, glossary, caption, note);
  - file continuity.
- **The checker framework.** A checker runs its chosen checks in declared order, collects issues and a dictionary of intermediate results, and halts by a fixed rule. A chain runs whole checkers in sequence and stops after the first checker that reports issues. Four entry points build such chains: the analysis chain and the display-item chain, each for tables and for figures.
- **The output-file requirements.** These are the declared expectations about the files a run leaves behind: which names (exact or glob) are allowed, how created files are assigned to requirements, which files are read and which are deleted once read, and the issues raised about a text file's content. The model also covers the queries made of the files read back (contents, pretty contents, description, single output, deletion of kept files).
- **The code runner.** It cuts the code block out of a chat response with the three fence patterns, deletes the previous output file, runs the code and reads the output file back.

Modules, one file each:

| file | module | role |
|---|---|---|
| `wrappers.dfy` | `Wrappers` | `Option` and `Result` |
| `py_text.dfy` | `PyText` | the string operations of Python that the code relies on |
| `string_order.dfy` | `StringOrder` | Python's order on strings and `sorted` |
| `run_issues.dfy` | `RunIssues` | the issue record |
| `checker_framework.dfy` | `CheckerFramework` | the base checker and the chain checker (classes), with the driver loop |
| `df_model.dfy` | `DfModel` | frames, cells, keyword arguments, the values outside helpers supply, checker kinds |
| `df_syntax.dfy`, `df_content.dfy`, `df_compilation.dfy`, `df_second.dfy`, `df_annotation.dfy`, `df_continuity.dfy` | `DfSyntax`, `DfContent`, `DfCompilation`, `DfSecond`, `DfAnnotation`, `DfContinuity` | the `check_*` rules |
| `df_checkers.dfy` | `DfCheckers` | each checker class: its choice of checks, its declared check methods and what each check does |
| `df_chains.dfy` | `DfChains` | the four entry points |
| `glob.dfy`, `file_system.dfy` | `Glob`, `FileSystem` | `fnmatch`; the disk as a class whose file map `open` reads and `os.remove` updates |
| `output_file_requirements.dfy` | `OutputFileRequirements` | requirements, their matching, reading and deletion, and the conversion of created files |
| `with_content.dfy` | `OutputFilesWithContent` | the queries made of the converted requirements |
| `code_runner.dfy` | `CodeRunner` | code extraction and the code run |

Operations that update state in place are modelled that way:
- the checkers' issue lists and result dictionaries;
- the disk's files;
- the loops over requirements, fences and files.

Each such method is proved equal to a specification function. The properties of that function are proved as lemmas.

Two behaviours of the code are kept as written:
- **The `xerr` property reads the `yerr` key.** So `check_that_specified_columns_exist` checks the `yerr` columns twice and never the `x` error columns (`DfSyntax.YerrReportedTwice`).
- **A chain stops after the first checker that reports issues, and the content checkers stop after their first issue.** Consider a table with a trivial range index and a repeated non-integer value. Only one issue comes back for it: the repeated-value issue, because that check runs before the index check (`DfChains.FirstReporterEndsChain`, `CheckerFramework.RunAllStopsOnFailure`).

## Model

| member | source | states |
|---|---|---|
| CheckerFramework.Apply | data_to_paper/data_to_paper/research_types/hypothesis_testing/check_df_to_funcs/df_checker.py:62-73 | one check step: the issue list only grows, by exactly the issues the check added; an exception escaping the check ends the run, keeping the issues and results from before the check (see Left out); a normal return merges the check's updates into the results; the no-issue assertion fails exactly when the check returned True but added no issue |
| CheckerFramework.Drive | data_to_paper/data_to_paper/research_types/hypothesis_testing/check_df_to_funcs/df_checker.py:62-73 | the driver loop never removes an issue and never reports a missing check method (that assertion comes before the loop) |
| CheckerFramework.Executed | data_to_paper/data_to_paper/research_types/hypothesis_testing/check_df_to_funcs/df_checker.py:62-73 | the driver evaluates at most all the checks, and none only when there are none |
| CheckerFramework.RunAll | data_to_paper/data_to_paper/research_types/hypothesis_testing/check_df_to_funcs/df_checker.py:62-73 | reference run of every check in order with no early halt: issues only grow |
| CheckerFramework.DriveRunsPrefix | data_to_paper/data_to_paper/research_types/hypothesis_testing/check_df_to_funcs/df_checker.py:62-73 | the driver runs exactly a prefix of the checks in declared order, each seeing the results of those before it; it does not halt before the last check of that prefix, and when it stops early without a failure, the halting rule (issues present and stop-after-first-issue or a True return) held after that check |
| CheckerFramework.DriveWithoutHaltRunsAll | data_to_paper/data_to_paper/research_types/hypothesis_testing/check_df_to_funcs/df_checker.py:62-73 | when the halting rule never holds, every check is run |
| CheckerFramework.RunAllStopsOnFailure | data_to_paper/data_to_paper/research_types/hypothesis_testing/check_df_to_funcs/df_checker.py:62-73 | once an exception or a failed assertion has ended a run, later checks are not run |
| CheckerFramework.CompletedRunHasNoSilentStop | data_to_paper/data_to_paper/research_types/hypothesis_testing/check_df_to_funcs/df_checker.py:65-69 | in a run that completes, no check returned True without adding an issue |
| CheckerFramework.NoStopFlagNoSilentStop | data_to_paper/data_to_paper/research_types/hypothesis_testing/check_df_to_funcs/df_checker.py:65-69 | when no check ever returns True, the assertion that a stopping check added an issue cannot fail |
| CheckerFramework.NoUpdatesKeepResults | data_to_paper/data_to_paper/research_types/hypothesis_testing/check_df_to_funcs/df_checker.py:62-77 | when no check sets an intermediate result, the results are returned as they came in |
| CheckerFramework.DriveIssuesSatisfy | data_to_paper/data_to_paper/research_types/hypothesis_testing/check_df_to_funcs/df_checker.py:38-73 | every issue the driver collects is one the checks appended (or was there before), so a property of all appended issues holds of all collected ones |
| CheckerFramework.Enabled | data_to_paper/data_to_paper/research_types/hypothesis_testing/check_df_to_funcs/df_checker.py:57-60 | the enabled checks are at most the choice-of-checks entries |
| CheckerFramework.EnabledIff | data_to_paper/data_to_paper/research_types/hypothesis_testing/check_df_to_funcs/df_checker.py:57-60 | a check runs under a choice of checks exactly when the dictionary maps it to True |
| CheckerFramework.FirstMissingSpec | data_to_paper/data_to_paper/research_types/hypothesis_testing/check_df_to_funcs/df_checker.py:52-55 | the first missing check method is found exactly when some declared check method is not a key, and it is such a method |
| CheckerFramework.ChecksToRun | data_to_paper/data_to_paper/research_types/hypothesis_testing/check_df_to_funcs/df_checker.py:57-60 | without a choice of checks, every declared check method runs |
| CheckerFramework.ChecksToRunSpec | data_to_paper/data_to_paper/research_types/hypothesis_testing/check_df_to_funcs/df_checker.py:52-60 | with a choice of checks, the run proceeds exactly when every declared check method is a key, and then exactly the enabled checks run in dictionary order; otherwise the assertion names a declared method that is not a key |
| CheckerFramework.RunChecksSpec | data_to_paper/data_to_paper/research_types/hypothesis_testing/check_df_to_funcs/df_checker.py:62-77 | the issues only grow, and a missing check method fails the assertion before any check runs, leaving issues and results unchanged |
| CheckerFramework.BaseChecker.constructor | data_to_paper/data_to_paper/research_types/hypothesis_testing/check_df_to_funcs/df_checker.py:32-36 | a new checker has no issues, the given intermediate results and the given stop flag |
| CheckerFramework.BaseChecker.RunChecks | data_to_paper/data_to_paper/research_types/hypothesis_testing/check_df_to_funcs/df_checker.py:62-77 | the loop updates the checker's issues and intermediate results to what the driver specification computes, returning how the run ended |
| CheckerFramework.MemberOutcome | data_to_paper/data_to_paper/research_types/hypothesis_testing/check_df_to_funcs/df_checker.py:87-94 | a chain member returns normally exactly when its own run completes, handing back all its issues and its results; an exception inside it escapes as that exception |
| CheckerFramework.ChainSpecStep | data_to_paper/data_to_paper/research_types/hypothesis_testing/check_df_to_funcs/df_checker.py:87-94 | one chain step: an exception or failed assertion in the first member ends the chain; otherwise its issues are appended and its results merged, and the chain stops there exactly when that member reported issues and the chain stops after the first issue |
| CheckerFramework.ChainCutsAfterFirstReporter | data_to_paper/data_to_paper/research_types/hypothesis_testing/check_df_to_funcs/df_checker.py:87-94 | a chain that stops after the first issue runs members in order; every member before the last one it ran completed silently, and when it stops early, the last member it ran reported an issue |
| CheckerFramework.ChainIssuesFromOneMember | data_to_paper/data_to_paper/research_types/hypothesis_testing/check_df_to_funcs/df_checker.py:87-94 | the issues of such a chain, started empty, are exactly those of the last member it ran |
| CheckerFramework.FirstMemberReports | data_to_paper/data_to_paper/research_types/hypothesis_testing/check_df_to_funcs/df_checker.py:87-94 | when the first member reports issues, the chain ends after it with those issues and its results |
| CheckerFramework.ChainChecker.constructor | data_to_paper/data_to_paper/research_types/hypothesis_testing/check_df_to_funcs/df_checker.py:83-85 | a new chain has its members, its stop flag, no issues and no results |
| CheckerFramework.ChainChecker.RunChecks | data_to_paper/data_to_paper/research_types/hypothesis_testing/check_df_to_funcs/df_checker.py:87-94 | the chain's loop sets the chain's issues and results to what the chain specification computes |
| CheckerFramework.CreateAndRunChainChecker | data_to_paper/data_to_paper/research_types/hypothesis_testing/check_df_to_funcs/df_checker.py:97-101 | a fresh chain, run, returns the issues and results of the chain specification started empty |
| DfModel.AsList | data_to_paper/data_to_paper/research_types/hypothesis_testing/check_df_to_funcs/df_checker.py:185-195 | a single column name becomes a one-element list, a list is kept |
| DfModel.WithDefaults | data_to_paper/data_to_paper/research_types/hypothesis_testing/check_df_to_funcs/df_checker.py:114-120 | a check's issue takes the checker's default category when none was given, the checker's default code problem and the filename as item, keeping forgive_after and the reported detail |
| DfModel.AllWithDefaults | data_to_paper/data_to_paper/research_types/hypothesis_testing/check_df_to_funcs/df_checker.py:114-120 | each raw issue is completed with the defaults, in order, and every completed issue names the file and the default code problem |
| DfSyntax.MatchesDfNameIff | data_to_paper/data_to_paper/research_types/hypothesis_testing/check_df_to_funcs/df_checker.py:211-219 | the filename pattern accepts exactly `df_` followed by one or more word characters, optionally with one final newline |
| DfSyntax.DfNameExamples | data_to_paper/data_to_paper/research_types/hypothesis_testing/check_df_to_funcs/df_checker.py:211-219 | example, implied by the general contracts: sample names accepted and rejected by the pattern |
| DfSyntax.CheckFilename | data_to_paper/data_to_paper/research_types/hypothesis_testing/check_df_to_funcs/df_checker.py:211-219 | one issue exactly when the filename does not match the pattern |
| DfSyntax.CheckNoLabel | data_to_paper/data_to_paper/research_types/hypothesis_testing/check_df_to_funcs/df_checker.py:221-227 | one issue exactly when a non-empty `label` argument is given |
| DfSyntax.CheckThatIndexIsTrue | data_to_paper/data_to_paper/research_types/hypothesis_testing/check_df_to_funcs/df_checker.py:130-135 | for a table, one issue exactly when `index=False` is passed (see also df_checker.py lines 238-246) |
| DfSyntax.CheckColumnArgIsNotUsed | data_to_paper/data_to_paper/research_types/hypothesis_testing/check_df_to_funcs/df_checker.py:248-253 | one issue exactly when `columns` is a keyword argument |
| DfSyntax.CheckKindArg | data_to_paper/data_to_paper/research_types/hypothesis_testing/check_df_to_funcs/df_checker.py:265-279 | no issue exactly when a kind is given and allowed; a missing kind and an unsupported kind are reported as such |
| DfSyntax.CheckYArg | data_to_paper/data_to_paper/research_types/hypothesis_testing/check_df_to_funcs/df_checker.py:281-287 | one issue exactly when `y` is not given |
| DfSyntax.CheckYerrArg | data_to_paper/data_to_paper/research_types/hypothesis_testing/check_df_to_funcs/df_checker.py:289-294 | one issue exactly when `yerr` is given |
| DfSyntax.XyArguments | data_to_paper/data_to_paper/research_types/hypothesis_testing/check_df_to_funcs/df_checker.py:166-167 | the eight inspected arguments, with `xerr` standing for the `yerr` key (see also df_checker.py lines 185-195, 296-302) |
| DfSyntax.MissingNames | data_to_paper/data_to_paper/research_types/hypothesis_testing/check_df_to_funcs/df_checker.py:305 | exactly the given names that are not column labels |
| DfSyntax.MissingColumnIssues | data_to_paper/data_to_paper/research_types/hypothesis_testing/check_df_to_funcs/df_checker.py:296-313 | one issue per given argument that names a missing column, and none otherwise |
| DfSyntax.YerrReportedTwice | data_to_paper/data_to_paper/research_types/hypothesis_testing/check_df_to_funcs/df_checker.py:166-167 | a `yerr` naming a missing column is reported twice, under `xerr` and under `yerr` (see also df_checker.py lines 296-313) |
| DfSyntax.ExistingColumnsNotReported | data_to_paper/data_to_paper/research_types/hypothesis_testing/check_df_to_funcs/df_checker.py:296-313 | when every named column exists, nothing is reported |
| DfModel.Flatten | data_to_paper/data_to_paper/research_types/hypothesis_testing/check_df_to_funcs/df_checker.py:362 | the flattened cells are exactly the cells of the rows (see also df_checker.py lines 378, 552) |
| DfModel.Column | data_to_paper/data_to_paper/research_types/hypothesis_testing/check_df_to_funcs/df_checker.py:349 | the column has one cell per row, the one at its position (see also df_checker.py line 854) |
| DfModel.ColumnPosition | data_to_paper/data_to_paper/research_types/hypothesis_testing/check_df_to_funcs/df_checker.py:344 | a column named by label is found exactly when the label is among the columns, at the first position holding it (see also df_checker.py lines 615, 693) |
| DfContent.FirstNested | data_to_paper/data_to_paper/research_types/hypothesis_testing/check_df_to_funcs/df_checker.py:361-370 | no nested Series or DataFrame is found exactly when the cells hold none; one that is found is such a cell |
| DfContent.DisallowedTypeNames | data_to_paper/data_to_paper/research_types/hypothesis_testing/check_df_to_funcs/df_checker.py:378-379 | the set of disallowed type names is empty exactly when every value is of an allowed type |
| DfContent.CheckDfValueTypes | data_to_paper/data_to_paper/research_types/hypothesis_testing/check_df_to_funcs/df_checker.py:361-385 | at most one issue, none exactly when every value is allowed; a nested frame is reported on its own by its type name, otherwise one issue lists all disallowed type names |
| DfContent.CountNulls | data_to_paper/data_to_paper/research_types/hypothesis_testing/check_df_to_funcs/df_checker.py:391-393 | the null count is at most the number of cells, and zero exactly when no cell is null |
| DfContent.CheckDfForNanValues | data_to_paper/data_to_paper/research_types/hypothesis_testing/check_df_to_funcs/df_checker.py:387-413 | one issue exactly when some cell (or the raw value of a p-value) is null, carrying the positive null count |
| DfContent.HeaderValues | data_to_paper/data_to_paper/research_types/hypothesis_testing/check_df_to_funcs/df_checker.py:416-424 | a single-level axis contributes its own labels |
| DfContent.LevelValues | data_to_paper/data_to_paper/research_types/hypothesis_testing/check_df_to_funcs/df_checker.py:421-422 | every label of a plain axis, and every part of a multi-index entry, is checked |
| DfContent.HeaderIssue | data_to_paper/data_to_paper/research_types/hypothesis_testing/check_df_to_funcs/df_checker.py:426-447 | at most one issue per axis, none exactly when the axis is allowed; a forbidden MultiIndex is reported as such and skips the type check |
| DfContent.CheckDfHeadersType | data_to_paper/data_to_paper/research_types/hypothesis_testing/check_df_to_funcs/df_checker.py:333-334 | at most two issues, none exactly when both axes are allowed under the checker's allowed types and MultiIndex rule (see also df_checker.py lines 426-447, 606-607) |
| DfContent.CheckDfIndexIsARange | data_to_paper/data_to_paper/research_types/hypothesis_testing/check_df_to_funcs/df_checker.py:449-484 | one issue exactly when the index is shown and is a plain 0..n-1 integer range |
| DfContent.StringLabelsAreNotARange | data_to_paper/data_to_paper/research_types/hypothesis_testing/check_df_to_funcs/df_checker.py:456-457 | string labels or a non-int dtype never count as a range index |
| DfContent.SizeIssues | data_to_paper/data_to_paper/research_types/hypothesis_testing/check_df_to_funcs/df_checker.py:486-513 | no issue exactly when both dimensions fit; one issue per dimension that exceeds its limit, carrying its size; the transpose hint is given exactly when the transposed frame would fit |
| DfContent.TransposeHintMeansTransposedFits | data_to_paper/data_to_paper/research_types/hypothesis_testing/check_df_to_funcs/df_checker.py:494-497 | when the issues suggest transposing, the transposed frame passes the size check |
| DfContent.CheckDfSize | data_to_paper/data_to_paper/research_types/hypothesis_testing/check_df_to_funcs/df_checker.py:351-352 | no issue exactly when the frame fits the limits for its kind (see also df_checker.py lines 486-513) |
| DfContent.CheckDfIsAResultOfDescribe | data_to_paper/data_to_paper/research_types/hypothesis_testing/check_df_to_funcs/df_checker.py:531-546 | one issue, forgiven after three, exactly when all seven describe labels are among the columns or the row labels |
| DfContent.NonIntegerValues | data_to_paper/data_to_paper/research_types/hypothesis_testing/check_df_to_funcs/df_checker.py:552 | exactly the non-integer floats of the frame, in order |
| DfContent.DistinctIffSetSize | data_to_paper/data_to_paper/research_types/hypothesis_testing/check_df_to_funcs/df_checker.py:553 | the list has as many values as its set exactly when no value repeats |
| DfContent.FirstRepeated | data_to_paper/data_to_paper/research_types/hypothesis_testing/check_df_to_funcs/df_checker.py:555-556 | the first value occurring more than once, if any |
| DfContent.Positions | data_to_paper/data_to_paper/research_types/hypothesis_testing/check_df_to_funcs/df_checker.py:557-559 | exactly the cells equal to the value, in row-major order |
| DfContent.CheckDfForRepeatedValues | data_to_paper/data_to_paper/research_types/hypothesis_testing/check_df_to_funcs/df_checker.py:548-572 | at most one issue, forgiven after one, and none without non-integer values; when reported, it names the first non-integer value that repeats (`duplicated_values[0]`) and exactly the cells holding it |
| DfContent.RepeatedValuesReportedIff | data_to_paper/data_to_paper/research_types/hypothesis_testing/check_df_to_funcs/df_checker.py:553 | the issue is reported exactly when some non-integer value appears twice |
| DfContent.PriorOverlapIssues | data_to_paper/data_to_paper/research_types/hypothesis_testing/check_df_to_funcs/df_checker.py:581-594 | one issue per earlier frame (other than the frame itself) sharing a non-integer value, and only those |
| DfContent.CheckDfForRepeatedValuesInPriorDfs | data_to_paper/data_to_paper/research_types/hypothesis_testing/check_df_to_funcs/df_checker.py:574-594 | no issue exactly when no earlier frame shares a non-integer value; none without earlier frames |
| DfContent.NonNumericColumns | data_to_paper/data_to_paper/research_types/hypothesis_testing/check_df_to_funcs/df_checker.py:614-619 | a missing column raises KeyError naming it; otherwise one issue per non-numeric `y` column, and only those |
| DfContent.CheckThatYValuesAreNumeric | data_to_paper/data_to_paper/research_types/hypothesis_testing/check_df_to_funcs/df_checker.py:612-619 | a missing `y` raises TypeError; otherwise the `y` columns are checked |
| DfContent.PValueColumns | data_to_paper/data_to_paper/research_types/hypothesis_testing/check_df_to_funcs/df_checker.py:635 | exactly the labels of the columns holding some p-value |
| DfContent.MixedPValueColumnLabels | data_to_paper/data_to_paper/research_types/hypothesis_testing/check_df_to_funcs/df_checker.py:638 | exactly the columns mixing p-values with other values |
| DfContent.NamesNotIn | data_to_paper/data_to_paper/research_types/hypothesis_testing/check_df_to_funcs/df_checker.py:657 | exactly the chosen names that are not p-value columns |
| DfContent.LabelsNotIn | data_to_paper/data_to_paper/research_types/hypothesis_testing/check_df_to_funcs/df_checker.py:665 | exactly the p-value columns not chosen |
| DfContent.CheckForPValuesInFigure | data_to_paper/data_to_paper/research_types/hypothesis_testing/check_df_to_funcs/df_checker.py:621-673 | a truthy `x_p_value` gives exactly the refusal. Otherwise: without `y_p_value`, nothing. With `y_p_value`, columns mixing p-values and other values give exactly that one issue. Failing that, an `x_p_value` given but falsy gives exactly the both-arguments issue. Otherwise the list is exactly an issue naming the chosen columns that are not p-value columns, if there are any, followed by an issue naming the p-value columns not chosen, if there are any |
| DfContent.PValueChoiceAcceptedIff | data_to_paper/data_to_paper/research_types/hypothesis_testing/check_df_to_funcs/df_checker.py:655-673 | with only `y_p_value` given and no mixed column, the figure passes exactly when every chosen column is a p-value column and every p-value column is chosen |
| DfContent.CheckForMaxNumberOfBars | data_to_paper/data_to_paper/research_types/hypothesis_testing/check_df_to_funcs/df_checker.py:675-685 | only bar plots are checked; a missing `y` raises TypeError; one issue, forgiven after two, exactly when rows times `y` columns exceeds the limit |
| DfContent.NumUnique | data_to_paper/data_to_paper/research_types/hypothesis_testing/check_df_to_funcs/df_checker.py:693 | the number of distinct non-missing values is at most the number of cells |
| DfContent.NotDiverseColumns | data_to_paper/data_to_paper/research_types/hypothesis_testing/check_df_to_funcs/df_checker.py:692-699 | a missing column raises KeyError; otherwise one issue per `y` column with at most two distinct values, and only those |
| DfContent.CheckThatYValuesAreDiverse | data_to_paper/data_to_paper/research_types/hypothesis_testing/check_df_to_funcs/df_checker.py:687-699 | only box, violin and hist plots are checked; a missing `y` raises TypeError |
| DfContent.XValuesDType | data_to_paper/data_to_paper/research_types/hypothesis_testing/check_df_to_funcs/df_checker.py:339-344 | the x values are the `x` column when given (a missing column raises KeyError), else the index |
| DfContent.CheckForNumericXForLineAndScatter | data_to_paper/data_to_paper/research_types/hypothesis_testing/check_df_to_funcs/df_checker.py:701-709 | only line and scatter plots are checked; one issue exactly when the x values are not numeric |
| DfCompilation.WidthValue | data_to_paper/data_to_paper/research_types/hypothesis_testing/check_df_to_funcs/df_checker.py:755-760 | the stored `width` is the float width, or the compiler's error text |
| DfCompilation.LongIndexLabels | data_to_paper/data_to_paper/research_types/hypothesis_testing/check_df_to_funcs/df_checker.py:792-793 | exactly the present index labels longer than six characters |
| DfCompilation.LongColumnLabels | data_to_paper/data_to_paper/research_types/hypothesis_testing/check_df_to_funcs/df_checker.py:795-796 | exactly the column labels longer than six characters |
| DfCompilation.CheckCompilationAndGetWidth | data_to_paper/data_to_paper/research_types/hypothesis_testing/check_df_to_funcs/df_checker.py:745-837 | the width is always stored (0. without a compilation function, which gives no issue); a compilation error is reported; a table up to 1.3 wide passes; a wider one raises the transpose assertion when `columns` was passed, and is otherwise reported once with the transpose hint exactly when the transposed table is narrower than 1.1, the long labels only when the index is shown, and the drop-columns hint exactly when no other remedy applies |
| DfCompilation.TooWideAlwaysHasRemedy | data_to_paper/data_to_paper/research_types/hypothesis_testing/check_df_to_funcs/df_checker.py:789-819 | a too-wide table is always given at least one remedy |
| DfSecond.ColumnRepetition | data_to_paper/data_to_paper/research_types/hypothesis_testing/check_df_to_funcs/df_checker.py:852-884 | a column is reported exactly when it holds no p-value, has more than five rows, `unique()` succeeds with one value, that value is a Python number and it is not a whole number below 10; rounding a NaN raises ValueError |
| DfSecond.RepetitionFrom | data_to_paper/data_to_paper/research_types/hypothesis_testing/check_df_to_funcs/df_checker.py:852-884 | the first column that raises ends the check, and it fails exactly when some column raises; otherwise the issues are the same-value issues of the reporting columns in column order, so issue k names the k-th reporting column |
| DfSecond.ReportedColumns | data_to_paper/data_to_paper/research_types/hypothesis_testing/check_df_to_funcs/df_checker.py:852-884 | the columns that give an issue without raising, each exactly once and in increasing order |
| DfSecond.RepetitionMembers | data_to_paper/data_to_paper/research_types/hypothesis_testing/check_df_to_funcs/df_checker.py:852-884 | a completed check: every issue is the one issue of some column, and every column that gives an issue contributes it |
| DfSecond.IntegerColumnNotReported | data_to_paper/data_to_paper/research_types/hypothesis_testing/check_df_to_funcs/df_checker.py:864 | a column of numpy integers or booleans is never reported |
| DfSecond.RepeatedFractionReported | data_to_paper/data_to_paper/research_types/hypothesis_testing/check_df_to_funcs/df_checker.py:861-884 | a float column repeating 12.5 over six or more rows is reported |
| DfSecond.OddsRatioIssue | data_to_paper/data_to_paper/research_types/hypothesis_testing/check_df_to_funcs/df_checker.py:902-917 | at most one issue per axis, given exactly when a label is set, the axis is not on a log scale, and the label mentions `odds ratio` in any case or the capital `OR`; forgiven after one |
| DfSecond.CheckLogScaleForOddsRatios | data_to_paper/data_to_paper/research_types/hypothesis_testing/check_df_to_funcs/df_checker.py:897-917 | at most two issues, none when both axes are on a log scale; exactly an issue for the x axis when its label mentions odds ratios and it is not on a log scale, followed by the same for the y axis, each naming the term found and forgiven after one |
| DfSecond.OddsRatioExamples | data_to_paper/data_to_paper/research_types/hypothesis_testing/check_df_to_funcs/df_checker.py:895-917 | example, implied by the general contracts: sample labels and whether they are reported |
| DfAnnotation.StringLabels | data_to_paper/data_to_paper/research_types/hypothesis_testing/check_df_to_funcs/df_checker.py:950-953 | every string label of the axis is among those checked |
| DfAnnotation.PresentNames | data_to_paper/data_to_paper/research_types/hypothesis_testing/check_df_to_funcs/df_checker.py:950-953 | exactly the level names that are set |
| DfAnnotation.AxisLabels | data_to_paper/data_to_paper/research_types/hypothesis_testing/check_df_to_funcs/df_checker.py:950-1013 | the string labels of an axis and, with the title, its level names |
| DfAnnotation.WithChar | data_to_paper/data_to_paper/research_types/hypothesis_testing/check_df_to_funcs/df_checker.py:955 | exactly the labels containing the character |
| DfAnnotation.CharIssue | data_to_paper/data_to_paper/research_types/hypothesis_testing/check_df_to_funcs/df_checker.py:946-973 | at most one issue per character and side, given exactly when some label of that side contains the character, listing exactly those labels, sorted |
| DfAnnotation.CharIssuesFrom | data_to_paper/data_to_paper/research_types/hypothesis_testing/check_df_to_funcs/df_checker.py:947-973 | no issue exactly when no label contains any of the characters; every issue is the one issue of some character and side, and every character and side that has an issue contributes it; at most two issues per character |
| DfAnnotation.CharIssuesFree | data_to_paper/data_to_paper/research_types/hypothesis_testing/check_df_to_funcs/df_checker.py:948-956 | neither side reports a character exactly when no label contains it |
| DfAnnotation.CheckForUnallowedCharactersInLabels | data_to_paper/data_to_paper/research_types/hypothesis_testing/check_df_to_funcs/df_checker.py:931-973 | no issue exactly when no label (titles included) contains `_`, `^`, `{` or `}`; every issue is the one issue of one of these characters on one side, every character and side with an issue contributes it, and there are at most eight |
| DfAnnotation.UnderscoreLabelReported | data_to_paper/data_to_paper/research_types/hypothesis_testing/check_df_to_funcs/df_checker.py:946-973 | a column label with an underscore is always reported |
| DfAnnotation.UnknownAbbreviations | data_to_paper/data_to_paper/research_types/hypothesis_testing/check_df_to_funcs/df_checker.py:977-979 | exactly the unknown abbreviations that are not glossary keys |
| DfAnnotation.CheckForAbbreviationsNotInGlossary | data_to_paper/data_to_paper/research_types/hypothesis_testing/check_df_to_funcs/df_checker.py:938-1008 | at most one issue, none exactly when every unknown abbreviation is a glossary key; it lists exactly the missing ones, sorted, and suggests spelling out when the stored width is a float below 0.8 |
| DfAnnotation.KeysNotIn | data_to_paper/data_to_paper/research_types/hypothesis_testing/check_df_to_funcs/df_checker.py:1014 | exactly the glossary keys that are not labels, `Significance` excepted |
| DfAnnotation.CheckForGlossaryLabelsNotInDf | data_to_paper/data_to_paper/research_types/hypothesis_testing/check_df_to_funcs/df_checker.py:1010-1029 | a missing or empty glossary is not checked; otherwise one issue exactly when some key other than `Significance` is not a label, listing those keys |
| DfAnnotation.CaptionOrNoteIssues | data_to_paper/data_to_paper/research_types/hypothesis_testing/check_df_to_funcs/df_checker.py:1046-1064 | a missing text is an issue only when required; a present one gets one issue for each rule it breaks: a leading `Figure` or `Table`, `...`, and a `<...>` within one line |
| DfAnnotation.CheckNote | data_to_paper/data_to_paper/research_types/hypothesis_testing/check_df_to_funcs/df_checker.py:1066-1067 | a missing note is not an issue |
| DfAnnotation.CheckCaption | data_to_paper/data_to_paper/research_types/hypothesis_testing/check_df_to_funcs/df_checker.py:1069-1070 | a missing caption is an issue |
| DfAnnotation.CheckNoteIsDifferentThanCaption | data_to_paper/data_to_paper/research_types/hypothesis_testing/check_df_to_funcs/df_checker.py:1072-1078 | one issue exactly when note and caption are both given and one contains the other, ignoring case |
| DfAnnotation.NoteEqualToCaptionReported | data_to_paper/data_to_paper/research_types/hypothesis_testing/check_df_to_funcs/df_checker.py:1072-1078 | a note equal to the caption up to case is reported |
| DfAnnotation.EmptyNoteReported | data_to_paper/data_to_paper/research_types/hypothesis_testing/check_df_to_funcs/df_checker.py:1074-1075 | an empty note is always reported, since every caption contains it |
| DfAnnotation.PlaceholderExamples | data_to_paper/data_to_paper/research_types/hypothesis_testing/check_df_to_funcs/df_checker.py:1062 | example, implied by the general contracts: a `<...>` on one line is a placeholder; across lines or reversed it is not |
| DfAnnotation.CaptionIssueCount | data_to_paper/data_to_paper/research_types/hypothesis_testing/check_df_to_funcs/df_checker.py:1055-1061 | example, implied by the general contracts: a caption starting with `Table` and holding `...` breaks two rules |
| DfContinuity.CheckForFileContinuity | data_to_paper/data_to_paper/research_types/hypothesis_testing/check_df_to_funcs/df_checker.py:1097-1111 | a frame that is not the loaded one is an issue; an empty record raises IndexError; otherwise one issue exactly when the filename is not the last recorded filename plus `_formatted` |
| DfContinuity.FormattedNamePasses | data_to_paper/data_to_paper/research_types/hypothesis_testing/check_df_to_funcs/df_checker.py:1103-1105 | formatting the loaded `df_x` as `df_x_formatted` passes |
| DfCheckers.ChecksOf | data_to_paper/data_to_paper/research_types/hypothesis_testing/check_df_to_funcs/df_checker.py:229-232 | each kind's choice-of-checks keys in dictionary order; only the table compilation checker computes the width (see also df_checker.py lines 255-258, 315-320, 515-521, 596-600, 711-717, 839-841) |
| DfCheckers.AllEnabledKeys | data_to_paper/data_to_paper/research_types/hypothesis_testing/check_df_to_funcs/df_checker.py:229-232 | a dictionary of all-True entries has the checks as keys and enables all of them, in order (see also df_checker.py lines 515-521) |
| DfCheckers.ChoiceCoversDeclared | data_to_paper/data_to_paper/research_types/hypothesis_testing/check_df_to_funcs/df_checker.py:49-60 | every kind's choice of checks names all its check methods, so its assertion passes and exactly its dictionary's checks run, in that order (see also df_checker.py lines 229-232, 515-521) |
| DfCheckers.DeclaredAreChosen | data_to_paper/data_to_paper/research_types/hypothesis_testing/check_df_to_funcs/df_checker.py:49-55 | every declared check method is a key of its kind's choice of checks |
| DfCheckers.Report | data_to_paper/data_to_paper/research_types/hypothesis_testing/check_df_to_funcs/df_checker.py:114-120 | a check that returns adds its issues, completed with the kind's defaults, returns None and sets no result |
| DfCheckers.ReportOrRaise | data_to_paper/data_to_paper/research_types/hypothesis_testing/check_df_to_funcs/df_checker.py:114-120 | an exception in a check escapes; otherwise its issues carry the defaults |
| DfCheckers.RuleOutcome | data_to_paper/data_to_paper/research_types/hypothesis_testing/check_df_to_funcs/df_checker.py:211-917 | running one check: no check returns True; only the compilation check sets a result (`width`); every issue is about the call's file with the kind's code problem; only the checks that index a column, iterate a missing `y`, round a NaN, transpose with `columns` or read an empty record can raise (see also df_checker.py lines 946-1111) |
| DfCheckers.MemberFor | data_to_paper/data_to_paper/research_types/hypothesis_testing/check_df_to_funcs/df_checker.py:97-101 | the checker created for a call has its kind's choice of checks, check methods, stop flag and initial results (see also df_checker.py lines 105-110, 327-328, 724-725, 928-929) |
| DfCheckers.CheckerRunDrives | data_to_paper/data_to_paper/research_types/hypothesis_testing/check_df_to_funcs/df_checker.py:62-77 | a checker of a kind runs exactly its choice of checks through the driver loop, halting by its stop flag |
| DfCheckers.CheckerAssertionsHold | data_to_paper/data_to_paper/research_types/hypothesis_testing/check_df_to_funcs/df_checker.py:52-69 | a df checker never fails one of the driver's assertions: it completes or a check raised |
| DfCheckers.CheckerKeepsResults | data_to_paper/data_to_paper/research_types/hypothesis_testing/check_df_to_funcs/df_checker.py:62-77 | every checker except the table compilation checker leaves the intermediate results unchanged |
| DfCheckers.CheckerIssuesCarryDefaults | data_to_paper/data_to_paper/research_types/hypothesis_testing/check_df_to_funcs/df_checker.py:114-120 | every issue a checker reports is about the call's file and carries the kind's code problem |
| DfCheckers.CompilationSetsWidth | data_to_paper/data_to_paper/research_types/hypothesis_testing/check_df_to_funcs/df_checker.py:745-760 | a table compilation checker that completes records the compiled width |
| DfCheckers.MemberRunsChecker | data_to_paper/data_to_paper/research_types/hypothesis_testing/check_df_to_funcs/df_checker.py:87-94 | as a chain member, a checker does what it computes from its initial results updated by the chain's |
| DfCheckers.MemberHandsBack | data_to_paper/data_to_paper/research_types/hypothesis_testing/check_df_to_funcs/df_checker.py:87-94 | a member that completes hands back its initial results merged with the chain's, plus `width` for the table compilation checker (see also df_checker.py lines 724-725) |
| DfChains.ChainCall | data_to_paper/data_to_paper/research_types/hypothesis_testing/check_df_to_funcs/df_checker.py:1121-1158 | the entry points check the call with no prior frames |
| DfChains.Members | data_to_paper/data_to_paper/research_types/hypothesis_testing/check_df_to_funcs/df_checker.py:97-101 | the chain holds one checker per kind, in order (see also df_checker.py lines 1121-1158) |
| DfChains.ChainIssues | data_to_paper/data_to_paper/research_types/hypothesis_testing/check_df_to_funcs/df_checker.py:97-101 | the entry points return the chain's issues, or the exception a member raised (see also df_checker.py line 1126) |
| DfChains.RunChain | data_to_paper/data_to_paper/research_types/hypothesis_testing/check_df_to_funcs/df_checker.py:97-101 | creating and running the chain gives its issues or the exception |
| DfChains.CheckDfToLatexAnalysis | data_to_paper/data_to_paper/research_types/hypothesis_testing/check_df_to_funcs/df_checker.py:1129-1134 | the table analysis chain: table syntax, then table content |
| DfChains.CheckDfToFigureAnalysis | data_to_paper/data_to_paper/research_types/hypothesis_testing/check_df_to_funcs/df_checker.py:1121-1126 | the figure analysis chain: figure syntax, then figure content |
| DfChains.CheckDfToLatexDisplayitems | data_to_paper/data_to_paper/research_types/hypothesis_testing/check_df_to_funcs/df_checker.py:1149-1158 | the six-checker table display-item chain |
| DfChains.CheckDfToFigureDisplayitems | data_to_paper/data_to_paper/research_types/hypothesis_testing/check_df_to_funcs/df_checker.py:1137-1146 | the six-checker figure display-item chain |
| DfChains.FirstReporterEndsChain | data_to_paper/data_to_paper/research_types/hypothesis_testing/check_df_to_funcs/df_checker.py:87-94 | when the first checker reports issues, the later checkers do not run and the chain returns exactly those issues (see also df_checker.py lines 1121-1158) |
| DfChains.ChainIssuesFromOneChecker | data_to_paper/data_to_paper/research_types/hypothesis_testing/check_df_to_funcs/df_checker.py:87-94 | the issues a chain returns all come from one checker: they name the call's file and share its code problem (see also df_checker.py lines 1121-1158) |
| DfChains.ChainsIgnorePriorDfs | data_to_paper/data_to_paper/research_types/hypothesis_testing/check_df_to_funcs/df_checker.py:578-579 | the entry points pass no prior frames, so the prior-frames check reports nothing (see also df_checker.py lines 1121-1158) |
| DfChains.ResultsAfterFolds | data_to_paper/data_to_paper/research_types/hypothesis_testing/check_df_to_funcs/df_checker.py:87-94 | the chain's results after its first members, as a fold over the members |
| DfChains.MembersHandBack | data_to_paper/data_to_paper/research_types/hypothesis_testing/check_df_to_funcs/df_checker.py:87-94 | every member that completes hands back what one chain step computes |
| DfChains.MemberHandsBackAt | data_to_paper/data_to_paper/research_types/hypothesis_testing/check_df_to_funcs/df_checker.py:87-94 | the member at each position hands back one chain step |
| DfChains.ChainResults | data_to_paper/data_to_paper/research_types/hypothesis_testing/check_df_to_funcs/df_checker.py:87-94 | a chain whose first members completed holds the results those members computed, in order |
| DfChains.AnnotationSeesTableWidth | data_to_paper/data_to_paper/research_types/hypothesis_testing/check_df_to_funcs/df_checker.py:760 | the annotation checker of the table display-item chain sees the width the compilation checker recorded (see also df_checker.py lines 939-944, 1149-1158) |
| DfChains.TableResultsBeforeAnnotation | data_to_paper/data_to_paper/research_types/hypothesis_testing/check_df_to_funcs/df_checker.py:1149-1158 | before the annotation checker, the table chain holds exactly the recorded width |
| DfChains.AnnotationSeesNoFigureWidth | data_to_paper/data_to_paper/research_types/hypothesis_testing/check_df_to_funcs/df_checker.py:725-730 | the figure chain's annotation checker sees `width` None, so a figure is never narrow (see also df_checker.py lines 939-944, 1137-1146) |
| DfChains.FigureResultsBeforeAnnotation | data_to_paper/data_to_paper/research_types/hypothesis_testing/check_df_to_funcs/df_checker.py:1137-1146 | before the annotation checker, the figure chain holds `width` None |
| Glob.LiteralMatchesItself | data_to_paper/data_to_paper/run_gpt_code/output_file_requirements.py:37-38 | under the modelled `fnmatch` (no bracket classes), a pattern without `*`, `?` or `[` matches exactly the name it spells |
| Glob.StarMatchesAll | data_to_paper/data_to_paper/run_gpt_code/output_file_requirements.py:37-38 | `*` matches every name |
| Glob.MatchesConcat | data_to_paper/data_to_paper/run_gpt_code/output_file_requirements.py:37-38 | a name matching `p` followed by one matching `q` matches `p + q` |
| Glob.StarSuffix | data_to_paper/data_to_paper/run_gpt_code/output_file_requirements.py:37-38 | `*` followed by a literal without `*`, `?` or `[`, such as `*.csv`, matches exactly the names ending with that literal |
| Glob.StarSuffixMatched | data_to_paper/data_to_paper/run_gpt_code/output_file_requirements.py:37-38 | the names `*` plus a literal accepts end with that literal |
| FileSystem.Disk.Remove | data_to_paper/data_to_paper/run_gpt_code/output_file_requirements.py:44-45 | removing a present file deletes it and nothing else; removing a missing one raises FileNotFoundError and changes nothing |
| FileSystem.Disk.Read | data_to_paper/data_to_paper/run_gpt_code/output_file_requirements.py:79-80 | reading gives what the files hold at that path |
| FileSystem.ReadFrom | data_to_paper/data_to_paper/run_gpt_code/output_file_requirements.py:79-80 | a read succeeds exactly when the file exists, and gives its text |
| FileSystem.PathOf | data_to_paper/data_to_paper/run_gpt_code/output_file_requirements.py:206 | without a run folder the path is the name; with one it is the folder, a slash and the name |
| FileSystem.PathOfInjective | data_to_paper/data_to_paper/run_gpt_code/output_file_requirements.py:206 | two names in one folder give the same path exactly when they are the same name |
| OutputFileRequirements.KindDefaults | data_to_paper/data_to_paper/run_gpt_code/output_file_requirements.py:29-32 | data and pickle files are kept and text files deleted; a data file need not be created; content kinds need one file (see also output_file_requirements.py lines 63-72, 97-99, 109-112, 148-151) |
| OutputFileRequirements.ContentOf | data_to_paper/data_to_paper/run_gpt_code/output_file_requirements.py:47-106 | a plain or data requirement reads nothing; a content requirement reads the file, raising FileNotFoundError when it is missing |
| OutputFileRequirements.ContentOfShrunk | data_to_paper/data_to_paper/run_gpt_code/output_file_requirements.py:47-80 | reading from a disk that only lost files gives what the original disk gave |
| OutputFileRequirements.PutSpec | data_to_paper/data_to_paper/run_gpt_code/output_file_requirements.py:183-208 | assigning to a dict stores the value under the key, leaves other keys alone and adds a new key once, at the end |
| OutputFileRequirements.LookupKeys | data_to_paper/data_to_paper/run_gpt_code/output_file_requirements.py:204-208 | a key is found exactly when it is among the keys |
| OutputFileRequirements.FirstMatchSpec | data_to_paper/data_to_paper/run_gpt_code/output_file_requirements.py:180-186 | the first match is the earliest requirement that matches; there is none when none matches |
| OutputFileRequirements.FirstMatchIs | data_to_paper/data_to_paper/run_gpt_code/output_file_requirements.py:181-184 | a matching requirement with none matching before it is the first match |
| OutputFileRequirements.FirstMatchNone | data_to_paper/data_to_paper/run_gpt_code/output_file_requirements.py:185-186 | with no requirement matching, there is no first match |
| OutputFileRequirements.RequirementKeys | data_to_paper/data_to_paper/run_gpt_code/output_file_requirements.py:178 | the dict keys are the distinct requirements, each once |
| OutputFileRequirements.AllowedCreatedFilenames | data_to_paper/data_to_paper/run_gpt_code/output_file_requirements.py:160-161 | the filenames of the requirements, in order |
| OutputFileRequirements.Candidates | data_to_paper/data_to_paper/run_gpt_code/output_file_requirements.py:164-166 | only content requirements for one file of fixed name are candidates |
| OutputFileRequirements.SingleContentFileSpec | data_to_paper/data_to_paper/run_gpt_code/output_file_requirements.py:163-169 | a single content file exists exactly when exactly one requirement is a content requirement for one file of a fixed name, and it is that requirement's filename |
| OutputFileRequirements.PlacedOnce | data_to_paper/data_to_paper/run_gpt_code/output_file_requirements.py:178-187 | each occurrence of a created file lands under its first matching requirement, or among the unmatched files, and nowhere else |
| OutputFileRequirements.UnderMembers | data_to_paper/data_to_paper/run_gpt_code/output_file_requirements.py:178-187 | a file is under a requirement exactly when it was created and that requirement is its first match; it is unmatched exactly when no requirement matches |
| OutputFileRequirements.RequirementsToOutputFilesAndUnmatchedFiles | data_to_paper/data_to_paper/run_gpt_code/output_file_requirements.py:171-187 | the loop builds the first-match assignment and the unmatched files, in created order |
| OutputFileRequirements.AssignedAppend | data_to_paper/data_to_paper/run_gpt_code/output_file_requirements.py:181-184 | a file whose first match is a requirement is appended to that requirement's list only |
| OutputFileRequirements.AssignedAppendNone | data_to_paper/data_to_paper/run_gpt_code/output_file_requirements.py:185-186 | a file nothing matches is appended to the unmatched files only |
| OutputFileRequirements.RequirementsToOutputFiles | data_to_paper/data_to_paper/run_gpt_code/output_file_requirements.py:189-191 | the first part of the reconciliation |
| OutputFileRequirements.UnmatchedFiles | data_to_paper/data_to_paper/run_gpt_code/output_file_requirements.py:193-194 | the second part of the reconciliation |
| OutputFileRequirements.GetContent | data_to_paper/data_to_paper/run_gpt_code/output_file_requirements.py:47-106 | reading a requirement's file on the disk |
| OutputFileRequirements.DeletedIfNeeded | data_to_paper/data_to_paper/run_gpt_code/output_file_requirements.py:40-45 | deleting only ever removes files; it fails exactly when the file must go and is missing |
| OutputFileRequirements.DeleteIfNeeded | data_to_paper/data_to_paper/run_gpt_code/output_file_requirements.py:40-45 | a requirement that keeps its file leaves the disk alone; otherwise the file is removed, or FileNotFoundError is raised |
| OutputFileRequirements.GetContentAndDeleteIfNeeded | data_to_paper/data_to_paper/run_gpt_code/output_file_requirements.py:54-60 | read first, then delete if needed, on the disk |
| OutputFileRequirements.ReadAndDeleteSpec | data_to_paper/data_to_paper/run_gpt_code/output_file_requirements.py:54-60 | the disk only loses that file; the call succeeds exactly when the read and the deletion both find the file where needed; on success it gives the content read and deletes the file unless kept; a failure is FileNotFoundError and changes nothing |
| OutputFileRequirements.ConsumeRequirementFiles | data_to_paper/data_to_paper/run_gpt_code/output_file_requirements.py:204-207 | the inner comprehension on the disk, one file at a time |
| OutputFileRequirements.ConvertToOutputFileRequirementsWithContent | data_to_paper/data_to_paper/run_gpt_code/output_file_requirements.py:196-209 | the conversion on the disk: sorted created files are assigned, then each matched file is read and deleted if needed |
| OutputFileRequirements.ConsumeFilesSpec | data_to_paper/data_to_paper/run_gpt_code/output_file_requirements.py:204-207 | consuming one requirement's files only removes files; on success it removes exactly the paths it deletes and records what it read of every file |
| OutputFileRequirements.ConsumeAllSpec | data_to_paper/data_to_paper/run_gpt_code/output_file_requirements.py:203-208 | consuming the requirements' files only removes files; on success one entry per requirement, in dict order, holds what was read of each of its files |
| OutputFileRequirements.DeletedFilesSorted | data_to_paper/data_to_paper/run_gpt_code/output_file_requirements.py:202 | sorting the created files does not change which paths are deleted |
| OutputFileRequirements.ConvertedDisk | data_to_paper/data_to_paper/run_gpt_code/output_file_requirements.py:196-209 | on success the disk keeps every file except the matched files of requirements that delete them |
| OutputFileRequirements.ConvertedEntries | data_to_paper/data_to_paper/run_gpt_code/output_file_requirements.py:196-209 | on success there is one entry per distinct requirement, in declaration order, holding exactly the created files it first matches, each with its content as read before any deletion |
| OutputFileRequirements.ConvertSucceeds | data_to_paper/data_to_paper/run_gpt_code/output_file_requirements.py:196-209 | with distinct created files, the conversion fails only when a matched file is missing from disk |
| OutputFileRequirements.IssuesForOutputFileContentSpec | data_to_paper/data_to_paper/run_gpt_code/output_file_requirements.py:82-145 | a text file gets an empty-file issue exactly when it is all whitespace and a too-long issue exactly when it exceeds its token budget; the empty one comes first; all are about the file, in the output-file-content category; other content kinds get none |
| OutputFileRequirements.RFind | data_to_paper/data_to_paper/run_gpt_code/output_file_requirements.py:92 | the position of the last occurrence of the character, or -1 |
| OutputFileRequirements.BaseName | data_to_paper/data_to_paper/run_gpt_code/output_file_requirements.py:92 | the part after the last slash |
| OutputFileRequirements.SuffixOf | data_to_paper/data_to_paper/run_gpt_code/output_file_requirements.py:92 | a non-empty stem followed by a one-dot extension has that extension as its suffix, in any directory |
| OutputFileRequirements.ExtensionLabels | data_to_paper/data_to_paper/run_gpt_code/output_file_requirements.py:21-92 | `.tex`, `.txt` and `.csv` files are labelled `latex`, `output` and `csv`; any other extension gets `output` |
| OutputFileRequirements.NoDotLabel | data_to_paper/data_to_paper/run_gpt_code/output_file_requirements.py:92 | a name without a dot has no suffix and the default label |
| OutputFileRequirements.PrettyContentSpec | data_to_paper/data_to_paper/run_gpt_code/output_file_requirements.py:88-94 | with a file name, the pretty content is a block opening with the quoted name and a fence tagged by the extension label, holding the content's text unchanged, then the closing fence; without one, it is the text itself |
| OutputFileRequirements.BlockHeadNames | data_to_paper/data_to_paper/run_gpt_code/output_file_requirements.py:93 | a block's head begins with the quoted file name |
| OutputFilesWithContent.RequirementsOf | data_to_paper/data_to_paper/run_gpt_code/output_file_requirements.py:217-218 | the requirements of the dict, in dict order |
| OutputFilesWithContent.ConvertedRequirements | data_to_paper/data_to_paper/run_gpt_code/output_file_requirements.py:202-218 | after a conversion the requirements are the distinct declared requirements, in order of first declaration |
| OutputFilesWithContent.RequirementKeysDistinct | data_to_paper/data_to_paper/run_gpt_code/output_file_requirements.py:178-218 | requirements declared once each come back unchanged: collapsing duplicates is all the dict does |
| OutputFilesWithContent.ConvertedSingleContentFile | data_to_paper/data_to_paper/run_gpt_code/output_file_requirements.py:163-221 | after a conversion the single content file is that of the distinct declared requirements, and with each declared once, that of the declaration |
| OutputFilesWithContent.SelectedNames | data_to_paper/data_to_paper/run_gpt_code/output_file_requirements.py:233-300 | exactly the names the selection keeps under the requirement |
| OutputFilesWithContent.SelectedMembers | data_to_paper/data_to_paper/run_gpt_code/output_file_requirements.py:223-300 | a name is listed exactly when some entry holds it and the selection keeps it under that entry's requirement |
| OutputFilesWithContent.ConvertedListings | data_to_paper/data_to_paper/run_gpt_code/output_file_requirements.py:196-235 | after a conversion: all created files are exactly the matched created files; the content files those whose first match is a content requirement and whose name matches the pattern; the data files those whose first match keeps its files and whose name matches (see also output_file_requirements.py lines 294-300) |
| OutputFilesWithContent.CreatedContentFilesToContents | data_to_paper/data_to_paper/run_gpt_code/output_file_requirements.py:237-258 | the loop over requirements and files builds the contents dict the specification computes |
| OutputFilesWithContent.CreatedContentFilesToPrettyContents | data_to_paper/data_to_paper/run_gpt_code/output_file_requirements.py:260-270 | the contents, pretty |
| OutputFilesWithContent.CreatedContentFilesToRawContents | data_to_paper/data_to_paper/run_gpt_code/output_file_requirements.py:272-276 | the contents as read |
| OutputFilesWithContent.PutKeys | data_to_paper/data_to_paper/run_gpt_code/output_file_requirements.py:257 | assignment makes exactly the new key present besides the old ones |
| OutputFilesWithContent.ShowOneSpec | data_to_paper/data_to_paper/run_gpt_code/output_file_requirements.py:247-257 | a selected file's name is added as a key, and no other key's value changes |
| OutputFilesWithContent.ContentsKeys | data_to_paper/data_to_paper/run_gpt_code/output_file_requirements.py:237-258 | the contents dict has a key exactly for each created content file whose name matches the pattern |
| OutputFilesWithContent.ShowAllValue | data_to_paper/data_to_paper/run_gpt_code/output_file_requirements.py:245-257 | a file held once, by one entry, under a content requirement and matching the pattern, is shown with its own content |
| OutputFilesWithContent.ConvertedContents | data_to_paper/data_to_paper/run_gpt_code/output_file_requirements.py:196-258 | after a conversion the contents dict maps each created content file that matches the pattern to what its first matching requirement read of it, shown as asked, and has no other keys |
| OutputFilesWithContent.GetSingleOutput | data_to_paper/data_to_paper/run_gpt_code/output_file_requirements.py:284-292 | the loop's result is the specification's |
| OutputFilesWithContent.SingleOutputSpec | data_to_paper/data_to_paper/run_gpt_code/output_file_requirements.py:284-292 | None without a single content file; a KeyError naming it exactly when the single content file is not among the created content files |
| OutputFilesWithContent.Values | data_to_paper/data_to_paper/run_gpt_code/output_file_requirements.py:282 | the values of a dict, in order |
| OutputFilesWithContent.Join | data_to_paper/data_to_paper/run_gpt_code/output_file_requirements.py:282 | joining nothing is empty; joining one part is that part |
| OutputFilesWithContent.CreatedContentFilesDescription | data_to_paper/data_to_paper/run_gpt_code/output_file_requirements.py:278-282 | the blocks of the matching content files, joined by blank lines |
| OutputFilesWithContent.DescriptionSpec | data_to_paper/data_to_paper/run_gpt_code/output_file_requirements.py:278-282 | the description is empty when no content file matches, and with one file it is that file's block |
| OutputFilesWithContent.DataPaths | data_to_paper/data_to_paper/run_gpt_code/output_file_requirements.py:306-307 | the paths of the kept created files, in order |
| OutputFilesWithContent.DeleteAllCreatedFiles | data_to_paper/data_to_paper/run_gpt_code/output_file_requirements.py:302-307 | each kept created file is removed in order, the first missing one raising FileNotFoundError |
| OutputFilesWithContent.RemoveAllSpec | data_to_paper/data_to_paper/run_gpt_code/output_file_requirements.py:306-307 | the disk only loses files; removing succeeds exactly when the paths are distinct and all on disk, and then exactly those paths go |
| OutputFilesWithContent.PathsDistinct | data_to_paper/data_to_paper/run_gpt_code/output_file_requirements.py:307 | paths of names in one folder are distinct exactly when the names are |
| OutputFilesWithContent.DeleteAllSpec | data_to_paper/data_to_paper/run_gpt_code/output_file_requirements.py:302-307 | deleting all created files succeeds exactly when the kept created files are listed once each and are all on disk |
| OutputFilesWithContent.ConvertedSelected | data_to_paper/data_to_paper/run_gpt_code/output_file_requirements.py:196-235 | after a conversion a name is listed exactly when it was created, some requirement matches it, and the selection keeps it under its first matching requirement (see also output_file_requirements.py lines 294-300) |
| CodeRunner.FenceOf | scientistgpt/run_gpt_code/code_runner.py:11 | an opening line is four characters longer than its tag, and every closing line is a line break and three backticks |
| CodeRunner.FenceShape | scientistgpt/run_gpt_code/code_runner.py:11 | each pattern opens with exactly three backticks and closes with a line break and three backticks, with no other backtick |
| CodeRunner.CodeRegexpsDiffer | scientistgpt/run_gpt_code/code_runner.py:11 | there are three patterns and they differ in the character after the backticks |
| CodeRunner.OccursSpec | scientistgpt/run_gpt_code/code_runner.py:33 | the character-by-character occurrence is the occurrence of the slice |
| CodeRunner.FirstOccurrence | scientistgpt/run_gpt_code/code_runner.py:33 | a found occurrence lies at or after the start and inside the text |
| CodeRunner.FirstOccurrenceSpec | scientistgpt/run_gpt_code/code_runner.py:33 | the first occurrence occurs and has none before it; when none is found there is none at all |
| CodeRunner.FindAllSound | scientistgpt/run_gpt_code/code_runner.py:33 | every match returned is a lazy match: an opening line, then code with no closing line inside, then the first closing line |
| CodeRunner.LazyHead | scientistgpt/run_gpt_code/code_runner.py:33 | the first match of a search from an opening line is a lazy match of that opening line |
| CodeRunner.ExtractCode | scientistgpt/run_gpt_code/code_runner.py:30-37 | the loop over the patterns gives what extraction specifies |
| CodeRunner.FirstSingleSpec | scientistgpt/run_gpt_code/code_runner.py:32-36 | extraction settles on a pattern exactly when some pattern matches once, takes the first such one and strips its match, and otherwise fails with the number of backtick runs |
| CodeRunner.ExtractedSpec | scientistgpt/run_gpt_code/code_runner.py:30-37 | extraction succeeds exactly when the response has two runs of three backticks and a pattern matches once; otherwise FailedExtractingCode carries the count |
| CodeRunner.ExtractRoundTrip | scientistgpt/run_gpt_code/code_runner.py:11-37 | a response whose only backticks are one code block tagged python, " python" or nothing gives back that block's code, stripped |
| CodeRunner.OutputRead | scientistgpt/run_gpt_code/code_runner.py:39-49 | no output file reads as nothing; an output file reads as its text exactly when it is on disk, and otherwise fails with FailedLoadingOutput |
| CodeRunner.ReadOutputFile | scientistgpt/run_gpt_code/code_runner.py:39-49 | the read agrees with OutputRead on the disk |
| CodeRunner.OutputDeletedAsWritten | scientistgpt/run_gpt_code/code_runner.py:51-55 | as written, no output file raises TypeError; an output file is removed, a missing one tolerated |
| CodeRunner.OutputDeleted | scientistgpt/run_gpt_code/code_runner.py:51-55 | with the intended deletion, no output file leaves the disk alone; an output file is the only file removed |
| CodeRunner.DeleteOutputFile | scientistgpt/run_gpt_code/code_runner.py:51-55 | the disk after the call is OutputDeleted of the disk before it |
| CodeRunner.RunCode | scientistgpt/run_gpt_code/code_runner.py:57-64 | the outcome and the disk after the call are those of the intended run |
| CodeRunner.RanCodeSpec | scientistgpt/run_gpt_code/code_runner.py:57-64 | a run fails without touching the disk when no code can be extracted; a successful run returns the extracted code and the output file as the code left it |
| CodeRunner.StaleOutputNotRead | scientistgpt/run_gpt_code/code_runner.py:57-64 | an output file from an earlier run that the code does not write again makes the run fail with FailedLoadingOutput |
| CodeRunner.NoOutputFileFailsAsWritten | scientistgpt/run_gpt_code/code_runner.py:51-64 | as written, a runner without an output file fails with TypeError before running, whatever its response |
| CodeRunner.NoOutputFileRuns | scientistgpt/run_gpt_code/code_runner.py:39-64 | with the intended deletion, a runner without an output file returns the extracted code and no output when its code raises nothing |
| CodeRunner.AsWrittenAgreesWithOutputFile | scientistgpt/run_gpt_code/code_runner.py:51-64 | with an output file the as-written and the intended runs agree |
| PyText.LStripSpec | data_to_paper/data_to_paper/run_gpt_code/output_file_requirements.py:117 | lstrip removes exactly the white space at the front |
| PyText.RStripSpec | data_to_paper/data_to_paper/run_gpt_code/output_file_requirements.py:117 | rstrip removes exactly the white space at the end |
| PyText.Strip | scientistgpt/run_gpt_code/code_runner.py:36 | a stripped text neither starts nor ends with white space |
| PyText.StripEmptyIffAllSpace | data_to_paper/data_to_paper/run_gpt_code/output_file_requirements.py:117 | a text strips to nothing exactly when it is all white space |
| PyText.Lower | data_to_paper/data_to_paper/research_types/hypothesis_testing/check_df_to_funcs/df_checker.py:907 | lower maps each character to its lower case, keeping the length (see also df_checker.py line 1075) |
| StringOrder.LessEqTotal | data_to_paper/data_to_paper/run_gpt_code/output_file_requirements.py:202 | Python's string order is total |
| StringOrder.LessEqTransitive | data_to_paper/data_to_paper/run_gpt_code/output_file_requirements.py:202 | Python's string order is transitive |
| StringOrder.LessEqAntisymmetric | data_to_paper/data_to_paper/run_gpt_code/output_file_requirements.py:202 | Python's string order is antisymmetric |
| StringOrder.Sort | data_to_paper/data_to_paper/research_types/hypothesis_testing/check_df_to_funcs/df_checker.py:955-979 | sorted gives an ordered permutation of its input (see also output_file_requirements.py line 202) |
| StringOrder.SortSameElements | data_to_paper/data_to_paper/research_types/hypothesis_testing/check_df_to_funcs/df_checker.py:955-979 | sorting keeps exactly the same strings (see also output_file_requirements.py line 202) |

## Left out

- The wording of issues is not modelled. The `issue` and `instructions` texts are not modelled; an issue carries its category, item, code problem, forgive-after count and a `Detail` value naming what was found.
- Helpers outside the core are parameters of the model (`DfModel.Env`):
  - `get_max_rows_and_columns`;
  - `MAX_BARS`;
  - the pdflatex compilation function, which gives a width or an error text;
  - the longest row and column labels;
  - `is_unknown_abbreviation`;
  - the allowed plot kinds.
- Helpers that are not part of this model and are not parameters get fixed definitions, which the model assumes:
  - `is_non_integer_numeric` is a float cell with a fractional part (`DfContent.IsNonIntegerNumeric`);
  - `is_lower_eq(a, b)` is `a <= b`, where a missing bound is no bound (`DfModel.LowerEq`);
  - `is_containing_p_value` and `is_only_p_values` hold when some cell, or every cell, of the column is a p-value (`DfContent.ContainsPValue`, `DfContent.OnlyPValues`);
  - `extract_df_row_labels` / `extract_df_column_labels` give the string labels, the string parts of multi-index entries and, with the title, the level names that are set (`DfAnnotation.AxisLabels`).
- Several other operations are given as functions:
  - the token count of a text file;
  - `round_floats`;
  - the `str` of an unpickled object.
- CheckerFramework.Apply: when a check raises, the issues and intermediate results it had already added are dropped. The source's checker keeps them in `self.issues` and `self.intermediate_results`, for example after a non-numeric `y` column is reported and a later `y` column is missing. No entry point can observe them. The exception escapes `run_checks` before `ChainChecker._run_checks` extends its issues, and the four `check_df_to_*` functions create the checkers inside `create_and_run_chain_checker` and never hand them out.
- CheckerFramework.BaseChecker.RunChecks: on a raising check, the checker's issues and results are those from before that check, for the reason above.
- The framework's debug printing (`PRINT_DEBUG_COMMENTS`) is not modelled.
- How a cell prints is not modelled: p-values printed as strings and the LaTeX or figure output itself are outside the model.
- The `pvalue_on_str` argument and the `OnStrPValue` context of `get_pretty_content` are not modelled. The `pickledStr` parameter of `OutputFilesWithContent.Display` stands for `str` of a loaded object under that setting.
- Hypertargets are not modelled:
  - OutputFilesWithContent.CreatedContentFilesToContents has no `should_hypertarget` argument. The `create_hypertargets_to_numeric_values` step of `_get_created_content_files_to_contents` is therefore left out, and the contents are as if `should_hypertarget` were False.
  - The `hypertarget_prefixes` field of content requirements is not part of `OutputFileRequirements.Requirement`. So requirements that differ only in their prefixes collapse into one dict key in the model (`OutputFileRequirements.RequirementKeys`), while the source keeps them apart.
- Values in cells are abstract: integers, reals, NaN, None, strings, booleans, tuples, p-values, nested frames and other objects by type name.
- Equality of cells is structural. An integer cell and a float cell of the same value count as distinct in `DfContent.NumUnique` and in `DfSecond.HasSingleValue`, where pandas would count them as one.
- Floating point is modelled by reals, so rounding is exact. Infinite floats are not modelled, so the `OverflowError` that `round` raises on an infinite cell in `check_for_repetitive_value_in_column` has no counterpart. A NaN cell is modelled, and `round` of it raises `ValueError`.
- `DfModel.Column` and the column lookups take the first column carrying a label. A duplicated column label, which pandas would turn into a sub-frame, is not modelled.
- DfSyntax.MatchesDfNameIff: `\w` is taken as the ASCII letters, digits and `_`. Python's `re` with a `str` pattern also accepts every Unicode word character, so a name such as `df_é` matches `^df_\w+$` in the source but not in the model.
- DfSyntax.CheckFilename: through the ASCII `\w` above, it reports `BadFilename` for a name with non-ASCII word characters (`df_é`) that the source accepts. For ASCII names it agrees with the source.
- `PyText.Lower` lowers ASCII letters only; Unicode case mapping is not modelled.
- `Glob.Matches` does not model bracket classes (`[...]`) of `fnmatch`; only `*`, `?` and literal characters are modelled. So `Glob.LiteralMatchesItself` and `Glob.StarSuffix` say nothing about `fnmatch` on patterns holding `[`: for example, `fnmatch('ab', 'a[b]')` holds.
- `FileSystem.PathOf` joins a folder and a name with `/`. Path normalisation (`..`, repeated slashes, absolute names) is not modelled.
- Unpickling is not modelled: a pickle requirement's content is the file's data.
- `run_code_from_file`, the sandboxed execution of the code, is not part of this model. It is the `CodeRunner.Program` parameter, which maps the code, the script file and the files on disk to the files after the run and the exception it raised.
- Files are held as text. Binary files and file encodings are not modelled.
- The disk raises only `FileNotFoundError`, and `TypeError` for `os.remove(None)`. Other operating-system errors (permissions, a directory in place of a file) are not modelled.
- Concurrency and the timing of the run are not modelled.

## Findings

| source | as written | input that shows it | evidently intended | confidence | as-written member | corrected member |
|---|---|---|---|---|---|---|
| scientistgpt/run_gpt_code/code_runner.py:51-55 | `delete_output_file` calls `os.remove(self.output_file)` even when `output_file` is `None`. `os.remove(None)` raises `TypeError`, which only `FileNotFoundError` is caught around. So `run_code` fails before running the code, although `read_output_file` handles an absent output file. | a `CodeRunner` whose `output_file` is `None` and whose response holds one valid code block | without an output file there is nothing to delete, and the run goes on to return the code with output `None` | not executed | CodeRunner.NoOutputFileFailsAsWritten | CodeRunner.NoOutputFileRuns |
