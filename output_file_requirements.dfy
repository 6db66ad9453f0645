/**
 * The declared expectations about the files a run of generated code leaves
 * behind: which names (exact or glob) are allowed, which files are read and
 * which are deleted once read, and the issues raised about a text file's
 * content.
 */
module OutputFileRequirements {
  import opened Wrappers
  import opened RunIssues
  import opened FileSystem
  import Glob
  import PyText
  import StringOrder

  /**
   * The requirement classes. The content kinds read the file; a text
   * requirement has a token budget (`None` for none), a numeric text
   * requirement the precisions its floats are rounded between for display.
   */
  datatype Kind =
    | Plain                   // `OutputFileRequirement`
    | Data                    // `DataOutputFileRequirement`
    | BaseContent             // `BaseContentOutputFileRequirement`
    | PickleContent           // `PickleContentOutputFileRequirement`
    | TextContent(maxTokens: Option<nat>)
    | NumericTextContent(targetPrecision: int, sourcePrecision: int)

  /**
   * One requirement. `shouldKeepFile` is `None` where the class leaves it
   * `NotImplemented` (the plain, base-content and numeric-text classes).
   */
  datatype Requirement = Requirement(kind: Kind, filename: string, minimalCount: int, shouldKeepFile: Option<bool>)

  predicate IsContent(k: Kind) {
    !k.Plain? && !k.Data?
  }

  /**
   * `self.should_keep_file` as a condition: an unset flag is the truthy
   * `NotImplemented`, so such a file is kept.
   */
  predicate KeepsFile(r: Requirement) {
    r.shouldKeepFile != Some(false)
  }

  predicate IsWildcard(r: Requirement) {
    Glob.IsWildcard(r.filename)
  }

  /** `requirement.matches(filename)` */
  predicate MatchesFile(r: Requirement, filename: string) {
    Glob.Matches(filename, r.filename)
  }

  // ------------------------------------------------------------ class defaults

  function DataRequirement(filename: string): Requirement {
    Requirement(Data, filename, 0, Some(true))
  }

  function PickleRequirement(filename: string): Requirement {
    Requirement(PickleContent, filename, 1, Some(true))
  }

  function TextRequirement(filename: string, maxTokens: Option<nat>): Requirement {
    Requirement(TextContent(maxTokens), filename, 1, Some(false))
  }

  function NumericTextRequirement(filename: string, targetPrecision: int): Requirement {
    Requirement(NumericTextContent(targetPrecision, 10), filename, 1, None)
  }

  /** Data and pickle files are kept and text files deleted; a data file need not be created at all. */
  lemma KindDefaults(f: string, maxTokens: Option<nat>, precision: int)
    ensures KeepsFile(DataRequirement(f)) && DataRequirement(f).minimalCount == 0
    ensures KeepsFile(PickleRequirement(f)) && PickleRequirement(f).minimalCount == 1
    ensures !KeepsFile(TextRequirement(f, maxTokens)) && TextRequirement(f, maxTokens).minimalCount == 1
    ensures KeepsFile(NumericTextRequirement(f, precision))
  {
  }

  // ------------------------------------------------------------ file contents

  /**
   * What `get_content` gives: nothing for the plain and data kinds, the
   * text of the file for text kinds, the loaded object for pickles (held
   * as the file's data; unpickling is not modelled).
   */
  datatype Content = NoContent | FileText(text: string) | Unpickled(data: string)

  /** `requirement.get_content(path)`: `FileNotFoundError` when a content kind finds no file. */
  function ContentOf(r: Requirement, path: string, files: map<string, string>): (c: Result<Content, OsError>)
    ensures !IsContent(r.kind) ==> c == Success(NoContent)
    ensures IsContent(r.kind) ==> (c.Success? <==> path in files)
  {
    match r.kind
    case Plain => Success(NoContent)
    case Data => Success(NoContent)
    case PickleContent => if path in files then Success(Unpickled(files[path])) else Failure(FileNotFoundError)
    case _ => if path in files then Success(FileText(files[path])) else Failure(FileNotFoundError)
  }

  /** Reading from a disk that only lost files gives what the original disk gave. */
  lemma ContentOfShrunk(r: Requirement, path: string, files: map<string, string>, before: map<string, string>)
    requires Shrunk(files, before) && ContentOf(r, path, files).Success?
    ensures ContentOf(r, path, before) == ContentOf(r, path, files)
  {
  }

  // ------------------------------------------------------------ dictionaries

  /** One entry of a Python dict with string keys. */
  datatype Entry<T> = Entry(key: string, value: T)

  function Keys<T>(d: seq<Entry<T>>): (r: seq<string>)
    ensures |r| == |d| && forall i | 0 <= i < |d| :: r[i] == d[i].key
  {
    if d == [] then [] else [d[0].key] + Keys(d[1..])
  }

  function Lookup<T>(d: seq<Entry<T>>, k: string): Option<T> {
    if d == [] then None else if d[0].key == k then Some(d[0].value) else Lookup(d[1..], k)
  }

  /** `d[k] = v`: a present key keeps its place and takes the new value, a new key goes last. */
  function Put<T>(d: seq<Entry<T>>, k: string, v: T): seq<Entry<T>> {
    if d == [] then [Entry(k, v)]
    else if d[0].key == k then [Entry(k, v)] + d[1..]
    else [d[0]] + Put(d[1..], k, v)
  }

  /** Assignment stores the value under its key, leaves every other key alone and adds the key once. */
  lemma {:induction false} PutSpec<T>(d: seq<Entry<T>>, k: string, v: T)
    ensures Lookup(Put(d, k, v), k) == Some(v)
    ensures forall k' | k' != k :: Lookup(Put(d, k, v), k') == Lookup(d, k')
    ensures Keys(Put(d, k, v)) == if k in Keys(d) then Keys(d) else Keys(d) + [k]
  {
    if d != [] && d[0].key != k {
      PutSpec(d[1..], k, v);
      assert Put(d, k, v)[1..] == Put(d[1..], k, v);
      if k !in Keys(d) {
        assert Keys(d) == [d[0].key] + Keys(d[1..]);
      }
    }
  }

  /** A key is found exactly when it is among the keys. */
  lemma {:induction false} LookupKeys<T>(d: seq<Entry<T>>, k: string)
    ensures Lookup(d, k).Some? <==> k in Keys(d)
  {
    if d != [] {
      LookupKeys(d[1..], k);
    }
  }

  // ------------------------------------------------------------ requirements

  /** The first requirement, in declaration order, whose pattern the file matches. */
  function FirstMatch(reqs: seq<Requirement>, filename: string): Option<Requirement> {
    if reqs == [] then None
    else if MatchesFile(reqs[0], filename) then Some(reqs[0])
    else FirstMatch(reqs[1..], filename)
  }

  /** The first match is the earliest matching requirement; there is none when no requirement matches. */
  lemma {:induction false} FirstMatchSpec(reqs: seq<Requirement>, filename: string)
    ensures FirstMatch(reqs, filename).None? <==> forall k | 0 <= k < |reqs| :: !MatchesFile(reqs[k], filename)
    ensures FirstMatch(reqs, filename).Some? ==>
      exists j | 0 <= j < |reqs| :: reqs[j] == FirstMatch(reqs, filename).value && MatchesFile(reqs[j], filename)
        && forall k | 0 <= k < j :: !MatchesFile(reqs[k], filename)
  {
    if reqs != [] && !MatchesFile(reqs[0], filename) {
      FirstMatchSpec(reqs[1..], filename);
      if FirstMatch(reqs[1..], filename).Some? {
        var j :| 0 <= j < |reqs| - 1 && reqs[1..][j] == FirstMatch(reqs[1..], filename).value
          && MatchesFile(reqs[1..][j], filename) && forall k | 0 <= k < j :: !MatchesFile(reqs[1..][k], filename);
        assert reqs[j + 1] == reqs[1..][j];
        assert forall k | 0 <= k < j + 1 :: !MatchesFile(reqs[k], filename) by {
          forall k | 0 < k < j + 1 ensures !MatchesFile(reqs[k], filename) {
            assert reqs[k] == reqs[1..][k - 1];
          }
        }
      } else {
        forall k | 0 < k < |reqs| ensures !MatchesFile(reqs[k], filename) {
          assert reqs[k] == reqs[1..][k - 1];
        }
      }
    }
  }

  /** When requirement `j` matches and none before it does, it is the first match. */
  lemma {:induction false} FirstMatchIs(reqs: seq<Requirement>, filename: string, j: nat)
    requires j < |reqs| && MatchesFile(reqs[j], filename)
    requires forall k | 0 <= k < j :: !MatchesFile(reqs[k], filename)
    ensures FirstMatch(reqs, filename) == Some(reqs[j])
  {
    if j > 0 {
      assert forall k | 0 <= k < j - 1 :: reqs[1..][k] == reqs[k + 1];
      FirstMatchIs(reqs[1..], filename, j - 1);
    }
  }

  /** With no requirement matching, there is no first match. */
  lemma {:induction false} FirstMatchNone(reqs: seq<Requirement>, filename: string)
    requires forall k | 0 <= k < |reqs| :: !MatchesFile(reqs[k], filename)
    ensures FirstMatch(reqs, filename) == None
  {
    if reqs != [] {
      assert forall k | 0 <= k < |reqs| - 1 :: reqs[1..][k] == reqs[k + 1];
      FirstMatchNone(reqs[1..], filename);
    }
  }

  /** The distinct requirements in order of first appearance: the keys of `{requirement: [] for requirement in self}`. */
  function RequirementKeys(reqs: seq<Requirement>): (r: seq<Requirement>)
    ensures forall x :: x in r <==> x in reqs
    ensures forall i, j | 0 <= i < j < |r| :: r[i] != r[j]
  {
    if reqs == [] then []
    else
      var d := RequirementKeys(reqs[..|reqs| - 1]);
      assert forall x | x in reqs[..|reqs| - 1] :: x in reqs;
      assert reqs == reqs[..|reqs| - 1] + [reqs[|reqs| - 1]];
      if reqs[|reqs| - 1] in d then d else d + [reqs[|reqs| - 1]]
  }

  /** `get_all_allowed_created_filenames` */
  function AllowedCreatedFilenames(reqs: seq<Requirement>): (r: seq<string>)
    ensures |r| == |reqs| && forall i | 0 <= i < |reqs| :: r[i] == reqs[i].filename
  {
    seq(|reqs|, i requires 0 <= i < |reqs| => reqs[i].filename)
  }

  // ------------------------------------------------------------ single content file

  /** A requirement for exactly one content file of a fixed name. */
  predicate IsSingleContentCandidate(r: Requirement) {
    IsContent(r.kind) && !IsWildcard(r) && r.minimalCount == 1
  }

  function Candidates(reqs: seq<Requirement>): (r: seq<Requirement>)
    ensures forall x | x in r :: x in reqs && IsSingleContentCandidate(x)
  {
    if reqs == [] then []
    else (if IsSingleContentCandidate(reqs[0]) then [reqs[0]] else []) + Candidates(reqs[1..])
  }

  /** `get_single_content_file` */
  function SingleContentFile(reqs: seq<Requirement>): Option<string> {
    var c := Candidates(reqs);
    if |c| != 1 then None else Some(c[0].filename)
  }

  /** A list with only the candidate at `i` keeps exactly that one. */
  lemma {:induction false} CandidatesOnly(reqs: seq<Requirement>, i: nat)
    requires i < |reqs| && IsSingleContentCandidate(reqs[i])
    requires forall j | 0 <= j < |reqs| && j != i :: !IsSingleContentCandidate(reqs[j])
    ensures Candidates(reqs) == [reqs[i]]
  {
    if i == 0 {
      CandidatesNone(reqs[1..]);
    } else {
      assert !IsSingleContentCandidate(reqs[0]);
      forall j | 0 <= j < |reqs| - 1 && j != i - 1 ensures !IsSingleContentCandidate(reqs[1..][j]) {
        assert reqs[1..][j] == reqs[j + 1];
      }
      CandidatesOnly(reqs[1..], i - 1);
    }
  }

  lemma {:induction false} CandidatesNone(reqs: seq<Requirement>)
    requires forall j | 0 <= j < |reqs| :: !IsSingleContentCandidate(reqs[j])
    ensures Candidates(reqs) == []
  {
    if reqs != [] {
      assert forall j | 0 <= j < |reqs| - 1 :: reqs[1..][j] == reqs[j + 1];
      CandidatesNone(reqs[1..]);
    }
  }

  /** Two candidates at different places leave more than one candidate. */
  lemma {:induction false} CandidatesTwo(reqs: seq<Requirement>, i: nat, j: nat)
    requires i < j < |reqs| && IsSingleContentCandidate(reqs[i]) && IsSingleContentCandidate(reqs[j])
    ensures |Candidates(reqs)| >= 2
  {
    if i == 0 {
      CandidatesHas(reqs[1..], j - 1);
    } else {
      CandidatesTwo(reqs[1..], i - 1, j - 1);
    }
  }

  lemma {:induction false} CandidatesHas(reqs: seq<Requirement>, j: nat)
    requires j < |reqs| && IsSingleContentCandidate(reqs[j])
    ensures |Candidates(reqs)| >= 1
  {
    if j > 0 && !IsSingleContentCandidate(reqs[0]) {
      CandidatesHas(reqs[1..], j - 1);
    }
  }

  /**
   * There is a single content file exactly when one requirement, counted
   * by position, is a content requirement for one file of a fixed name;
   * the file is that requirement's filename.
   */
  lemma SingleContentFileSpec(reqs: seq<Requirement>)
    ensures SingleContentFile(reqs).Some? <==>
      exists i | 0 <= i < |reqs| :: IsSingleContentCandidate(reqs[i])
        && forall j | 0 <= j < |reqs| && j != i :: !IsSingleContentCandidate(reqs[j])
    ensures forall i | 0 <= i < |reqs| && IsSingleContentCandidate(reqs[i])
        && (forall j | 0 <= j < |reqs| && j != i :: !IsSingleContentCandidate(reqs[j])) ::
      SingleContentFile(reqs) == Some(reqs[i].filename)
  {
    forall i | 0 <= i < |reqs| && IsSingleContentCandidate(reqs[i])
        && (forall j | 0 <= j < |reqs| && j != i :: !IsSingleContentCandidate(reqs[j]))
      ensures SingleContentFile(reqs) == Some(reqs[i].filename)
    {
      CandidatesOnly(reqs, i);
    }
    if SingleContentFile(reqs).Some? {
      var c := Candidates(reqs)[0];
      assert c in Candidates(reqs);
      var i :| 0 <= i < |reqs| && reqs[i] == c;
      forall j | 0 <= j < |reqs| && j != i ensures !IsSingleContentCandidate(reqs[j]) {
        if IsSingleContentCandidate(reqs[j]) {
          if i < j { CandidatesTwo(reqs, i, j); } else { CandidatesTwo(reqs, j, i); }
        }
      }
    }
  }

  // ------------------------------------------------------------ assignment of created files

  /** The files of `files`, in order, whose first matching requirement is `r`. */
  function Under(reqs: seq<Requirement>, files: seq<string>, r: Requirement): seq<string> {
    if files == [] then []
    else
      var last := files[|files| - 1];
      Under(reqs, files[..|files| - 1], r) + (if FirstMatch(reqs, last) == Some(r) then [last] else [])
  }

  /** The files of `files`, in order, that no requirement matches. */
  function Unmatched(reqs: seq<Requirement>, files: seq<string>): seq<string> {
    if files == [] then []
    else
      var last := files[|files| - 1];
      Unmatched(reqs, files[..|files| - 1]) + (if FirstMatch(reqs, last).None? then [last] else [])
  }

  /** The dictionary from each requirement to its files. */
  function Assigned(reqs: seq<Requirement>, files: seq<string>): map<Requirement, seq<string>> {
    map r | r in reqs :: Under(reqs, files, r)
  }

  /**
   * Each occurrence of a created file lands in exactly one place: every
   * occurrence under its first matching requirement, or every one among
   * the unmatched files, and none anywhere else.
   */
  lemma PlacedOnce(reqs: seq<Requirement>, files: seq<string>, r: Requirement, x: string)
    ensures multiset(Under(reqs, files, r))[x] == if FirstMatch(reqs, x) == Some(r) then multiset(files)[x] else 0
    ensures multiset(Unmatched(reqs, files))[x] == if FirstMatch(reqs, x).None? then multiset(files)[x] else 0
  {
    PlacedOnceUnder(reqs, files, r, x);
    PlacedOnceUnmatched(reqs, files, x);
  }

  lemma {:induction false} PlacedOnceUnder(reqs: seq<Requirement>, files: seq<string>, r: Requirement, x: string)
    ensures multiset(Under(reqs, files, r))[x] == if FirstMatch(reqs, x) == Some(r) then multiset(files)[x] else 0
  {
    if files != [] {
      var init := files[..|files| - 1];
      var last := files[|files| - 1];
      var added := if FirstMatch(reqs, last) == Some(r) then [last] else [];
      PlacedOnceUnder(reqs, init, r, x);
      assert files == init + [last];
      assert multiset(files)[x] == multiset(init)[x] + multiset{last}[x];
      assert multiset(Under(reqs, files, r))[x] == multiset(Under(reqs, init, r))[x] + multiset(added)[x];
    }
  }

  lemma {:induction false} PlacedOnceUnmatched(reqs: seq<Requirement>, files: seq<string>, x: string)
    ensures multiset(Unmatched(reqs, files))[x] == if FirstMatch(reqs, x).None? then multiset(files)[x] else 0
  {
    if files != [] {
      var init := files[..|files| - 1];
      PlacedOnceUnmatched(reqs, init, x);
      assert files == init + [files[|files| - 1]];
      assert multiset(files) == multiset(init) + multiset{files[|files| - 1]};
    }
  }

  /** A file is under `r` exactly when it was created and `r` is the first requirement it matches. */
  lemma UnderMembers(reqs: seq<Requirement>, files: seq<string>, r: Requirement)
    ensures forall x :: x in Under(reqs, files, r) <==> x in files && FirstMatch(reqs, x) == Some(r)
    ensures forall x :: x in Unmatched(reqs, files) <==> x in files && FirstMatch(reqs, x).None?
  {
    forall x ensures x in Under(reqs, files, r) <==> x in files && FirstMatch(reqs, x) == Some(r) {
      PlacedOnce(reqs, files, r, x);
    }
    forall x ensures x in Unmatched(reqs, files) <==> x in files && FirstMatch(reqs, x).None? {
      PlacedOnce(reqs, files, r, x);
    }
  }

  /**
   * `_get_requirements_to_output_files_and_unmatched_files`: each created
   * file goes to the first requirement it matches, or to the unmatched
   * list; every requirement has a list, possibly empty.
   */
  method RequirementsToOutputFilesAndUnmatchedFiles(reqs: seq<Requirement>, created: seq<string>)
    returns (placed: map<Requirement, seq<string>>, unmatched: seq<string>)
    ensures placed == Assigned(reqs, created)
    ensures unmatched == Unmatched(reqs, created)
  {
    placed := map r | r in reqs :: [];
    unmatched := [];
    for i := 0 to |created|
      invariant placed == Assigned(reqs, created[..i])
      invariant unmatched == Unmatched(reqs, created[..i])
    {
      var f := created[i];
      assert created[..i + 1] == created[..i] + [f];
      var found := false;
      for j := 0 to |reqs|
        invariant forall k | 0 <= k < j :: !MatchesFile(reqs[k], f)
        invariant !found
      {
        if MatchesFile(reqs[j], f) {
          FirstMatchIs(reqs, f, j);
          AssignedAppend(reqs, created[..i], f, reqs[j]);
          placed := placed[reqs[j] := placed[reqs[j]] + [f]];
          found := true;
          break;
        }
      }
      if !found {
        FirstMatchNone(reqs, f);
        AssignedAppendNone(reqs, created[..i], f);
        unmatched := unmatched + [f];
      }
    }
    assert created[..|created|] == created;
  }

  /** A file that first matches `r` is added at the end of `r`'s files and nowhere else. */
  lemma AssignedAppend(reqs: seq<Requirement>, files: seq<string>, f: string, r: Requirement)
    requires r in reqs && FirstMatch(reqs, f) == Some(r)
    ensures Assigned(reqs, files + [f]) == Assigned(reqs, files)[r := Assigned(reqs, files)[r] + [f]]
    ensures Unmatched(reqs, files + [f]) == Unmatched(reqs, files)
  {
    var after := files + [f];
    assert after[..|after| - 1] == files && after[|after| - 1] == f;
    var before := Assigned(reqs, files);
    var grown := before[r := before[r] + [f]];
    forall q | q in reqs ensures Assigned(reqs, after)[q] == grown[q] {
      assert Under(reqs, after, q) == Under(reqs, files, q) + (if q == r then [f] else []);
    }
    assert Assigned(reqs, after).Keys == grown.Keys;
  }

  /** A file no requirement matches is added at the end of the unmatched files and nowhere else. */
  lemma AssignedAppendNone(reqs: seq<Requirement>, files: seq<string>, f: string)
    requires FirstMatch(reqs, f).None?
    ensures Assigned(reqs, files + [f]) == Assigned(reqs, files)
    ensures Unmatched(reqs, files + [f]) == Unmatched(reqs, files) + [f]
  {
    var after := files + [f];
    assert after[..|after| - 1] == files && after[|after| - 1] == f;
    forall q | q in reqs ensures Under(reqs, after, q) == Under(reqs, files, q) {
    }
  }

  /** `get_requirements_to_output_files` */
  method RequirementsToOutputFiles(reqs: seq<Requirement>, created: seq<string>) returns (placed: map<Requirement, seq<string>>)
    ensures placed == Assigned(reqs, created)
  {
    var unmatched;
    placed, unmatched := RequirementsToOutputFilesAndUnmatchedFiles(reqs, created);
  }

  /** `get_unmatched_files` */
  method UnmatchedFiles(reqs: seq<Requirement>, created: seq<string>) returns (unmatched: seq<string>)
    ensures unmatched == Unmatched(reqs, created)
  {
    var placed;
    placed, unmatched := RequirementsToOutputFilesAndUnmatchedFiles(reqs, created);
  }

  // ------------------------------------------------------------ reading and deleting the matched files

  /** `requirement.get_content(path)` on the disk. */
  method GetContent(r: Requirement, path: string, disk: Disk) returns (c: Result<Content, OsError>)
    ensures c == ContentOf(r, path, disk.files)
  {
    if !IsContent(r.kind) {
      c := Success(NoContent);
    } else {
      var text := disk.Read(path);
      if text.Failure? {
        c := Failure(text.error);
      } else if r.kind.PickleContent? {
        c := Success(Unpickled(text.value));
      } else {
        c := Success(FileText(text.value));
      }
    }
  }

  /** `requirement.delete_if_needed(path)` on the files `files`. */
  function DeletedIfNeeded(r: Requirement, path: string, files: map<string, string>): (d: Result<map<string, string>, OsError>)
    ensures d.Success? ==> Shrunk(d.value, files)
    ensures d.Success? <==> KeepsFile(r) || path in files
  {
    if KeepsFile(r) then Success(files)
    else if path in files then Success(files - {path})
    else Failure(FileNotFoundError)
  }

  /** One requirement with the contents of its files: an item of `OutputFileRequirementsWithContent`. */
  datatype RequirementEntry = RequirementEntry(requirement: Requirement, files: seq<Entry<Content>>)

  type WithContent = seq<RequirementEntry>

  /**
   * The inner dict comprehension of `convert_to_output_file_requirements_with_content`
   * for one requirement: each file is read, then deleted if needed, in
   * order; the first exception ends the run. `acc` holds the files done so
   * far; the result comes with the files left on disk.
   */
  function ConsumeFiles(r: Requirement, names: seq<string>, folder: Option<string>, files: map<string, string>,
                        acc: seq<Entry<Content>>): (Result<seq<Entry<Content>>, OsError>, map<string, string>)
    decreases |names|
  {
    if names == [] then (Success(acc), files)
    else
      var path := PathOf(folder, names[0]);
      match ContentOf(r, path, files)
      case Failure(e) => (Failure(e), files)
      case Success(c) =>
        match DeletedIfNeeded(r, path, files)
        case Failure(e) => (Failure(e), files)
        case Success(rest) => ConsumeFiles(r, names[1..], folder, rest, Put(acc, names[0], c))
  }

  /** The outer comprehension: the requirements in dict order, each with its files. */
  function ConsumeAll(keys: seq<Requirement>, placed: map<Requirement, seq<string>>, folder: Option<string>,
                      files: map<string, string>, acc: WithContent): (Result<WithContent, OsError>, map<string, string>)
    requires forall r | r in keys :: r in placed
    decreases |keys|
  {
    if keys == [] then (Success(acc), files)
    else
      match ConsumeFiles(keys[0], placed[keys[0]], folder, files, [])
      case (Failure(e), rest) => (Failure(e), rest)
      case (Success(entries), rest) => ConsumeAll(keys[1..], placed, folder, rest, acc + [RequirementEntry(keys[0], entries)])
  }

  /** One step of the outer comprehension: the first requirement's files decide how it goes on. */
  lemma ConsumeAllStep(keys: seq<Requirement>, placed: map<Requirement, seq<string>>, folder: Option<string>,
                       files: map<string, string>, acc: WithContent, res: Result<seq<Entry<Content>>, OsError>, rest: map<string, string>)
    requires keys != [] && forall r | r in keys :: r in placed
    requires (res, rest) == ConsumeFiles(keys[0], placed[keys[0]], folder, files, [])
    ensures res.Failure? ==> ConsumeAll(keys, placed, folder, files, acc) == (Failure(res.error), rest)
    ensures res.Success? ==>
      ConsumeAll(keys, placed, folder, files, acc) == ConsumeAll(keys[1..], placed, folder, rest, acc + [RequirementEntry(keys[0], res.value)])
  {
  }

  /** What `convert_to_output_file_requirements_with_content` gives and leaves on disk. */
  function Converted(reqs: seq<Requirement>, created: seq<string>, folder: Option<string>, files: map<string, string>)
    : (Result<WithContent, OsError>, map<string, string>)
  {
    ConsumeAll(RequirementKeys(reqs), Assigned(reqs, StringOrder.Sort(created)), folder, files, [])
  }

  /** `requirement.delete_if_needed(path)` on the disk. */
  method DeleteIfNeeded(r: Requirement, path: string, disk: Disk) returns (d: Result<(), OsError>)
    modifies disk
    ensures d.Success? == DeletedIfNeeded(r, path, old(disk.files)).Success?
    ensures d.Failure? ==> d.error == DeletedIfNeeded(r, path, old(disk.files)).error
    ensures disk.files == if d.Success? then DeletedIfNeeded(r, path, old(disk.files)).value else old(disk.files)
  {
    d := Success(());
    if !KeepsFile(r) {
      d := disk.Remove(path);
    }
  }

  /** `get_content_and_delete_if_needed`: read first; a failed read deletes nothing. */
  function ReadAndDelete(r: Requirement, path: string, files: map<string, string>): (Result<Content, OsError>, map<string, string>) {
    match ContentOf(r, path, files)
    case Failure(e) => (Failure(e), files)
    case Success(c) =>
      match DeletedIfNeeded(r, path, files)
      case Failure(e) => (Failure(e), files)
      case Success(rest) => (Success(c), rest)
  }

  /** `requirement.get_content_and_delete_if_needed(path)` on the disk. */
  method GetContentAndDeleteIfNeeded(r: Requirement, path: string, disk: Disk) returns (c: Result<Content, OsError>)
    modifies disk
    ensures (c, disk.files) == ReadAndDelete(r, path, old(disk.files))
  {
    c := GetContent(r, path, disk);
    if c.Success? {
      var d := DeleteIfNeeded(r, path, disk);
      if d.Failure? {
        c := Failure(d.error);
      }
    }
  }

  /** A requirement's file is read and then, unless the requirement keeps it, deleted; the disk only ever loses that file. */
  lemma ReadAndDeleteSpec(r: Requirement, path: string, files: map<string, string>)
    ensures var (c, after) := ReadAndDelete(r, path, files);
      && Shrunk(after, files)
      && (c.Success? <==> (IsContent(r.kind) ==> path in files) && (KeepsFile(r) || path in files))
      && (c.Success? ==> c == ContentOf(r, path, files) && after == if KeepsFile(r) then files else files - {path})
      && (c.Failure? ==> c.error == FileNotFoundError && after == files)
  {
  }

  /** The inner comprehension on the disk: the files of one requirement, read and deleted if needed. */
  method ConsumeRequirementFiles(req: Requirement, names: seq<string>, folder: Option<string>, disk: Disk)
    returns (r: Result<seq<Entry<Content>>, OsError>)
    modifies disk
    ensures (r, disk.files) == ConsumeFiles(req, names, folder, old(disk.files), [])
  {
    var entries: seq<Entry<Content>> := [];
    for j := 0 to |names|
      invariant ConsumeFiles(req, names[j..], folder, disk.files, entries) == ConsumeFiles(req, names, folder, old(disk.files), [])
    {
      var path := PathOf(folder, names[j]);
      var content := GetContentAndDeleteIfNeeded(req, path, disk);
      if content.Failure? {
        return Failure(content.error);
      }
      assert names[j..][1..] == names[j + 1..];
      entries := Put(entries, names[j], content.value);
    }
    r := Success(entries);
  }

  /**
   * `convert_to_output_file_requirements_with_content`: the created files,
   * sorted, are assigned to requirements; then every matched file is read
   * and, unless its requirement keeps it, deleted.
   */
  method ConvertToOutputFileRequirementsWithContent(reqs: seq<Requirement>, created: seq<string>, folder: Option<string>, disk: Disk)
    returns (r: Result<WithContent, OsError>)
    modifies disk
    ensures (r, disk.files) == Converted(reqs, created, folder, old(disk.files))
  {
    var placed := RequirementsToOutputFiles(reqs, StringOrder.Sort(created));
    var keys := RequirementKeys(reqs);
    assert forall r | r in keys :: r in placed;
    var acc: WithContent := [];
    for i := 0 to |keys|
      invariant ConsumeAll(keys[i..], placed, folder, disk.files, acc) == Converted(reqs, created, folder, old(disk.files))
    {
      ghost var before := disk.files;
      assert keys[i..][0] == keys[i] && keys[i..][1..] == keys[i + 1..];
      var entries := ConsumeRequirementFiles(keys[i], placed[keys[i]], folder, disk);
      ConsumeAllStep(keys[i..], placed, folder, before, acc, entries, disk.files);
      if entries.Failure? {
        return Failure(entries.error);
      }
      acc := acc + [RequirementEntry(keys[i], entries.value)];
    }
    r := Success(acc);
  }

  // ------------------------------------------------------------ what the conversion does

  /** The paths of `names` that requirement `r` deletes. */
  function Removed(r: Requirement, names: seq<string>, folder: Option<string>): set<string> {
    if KeepsFile(r) then {} else set n | n in names :: PathOf(folder, n)
  }

  /** The paths the requirements `keys` delete. */
  function RemovedAll(keys: seq<Requirement>, placed: map<Requirement, seq<string>>, folder: Option<string>): set<string>
    requires forall r | r in keys :: r in placed
  {
    if keys == [] then {} else Removed(keys[0], placed[keys[0]], folder) + RemovedAll(keys[1..], placed, folder)
  }

  /** The dict `d` holds, for each of `names`, what requirement `r` reads from it on the files `files`. */
  predicate ReadsAll(r: Requirement, d: seq<Entry<Content>>, names: seq<string>, folder: Option<string>, files: map<string, string>) {
    forall k | k in names ::
      ContentOf(r, PathOf(folder, k), files).Success? && Lookup(d, k) == Some(ContentOf(r, PathOf(folder, k), files).value)
  }

  lemma ReadsAllShrunk(r: Requirement, d: seq<Entry<Content>>, names: seq<string>, folder: Option<string>,
                       files: map<string, string>, before: map<string, string>)
    requires Shrunk(files, before) && ReadsAll(r, d, names, folder, files)
    ensures ReadsAll(r, d, names, folder, before)
  {
    forall k | k in names ensures ContentOf(r, PathOf(folder, k), before) == ContentOf(r, PathOf(folder, k), files) {
      ContentOfShrunk(r, PathOf(folder, k), files, before);
    }
  }

  /**
   * Consuming one requirement's files only removes files, and on success
   * removes exactly the paths of the files it deletes and records what it
   * read of every file.
   */
  lemma ConsumeFilesSpec(r: Requirement, names: seq<string>, folder: Option<string>,
                         files: map<string, string>, acc: seq<Entry<Content>>)
    ensures Shrunk(ConsumeFiles(r, names, folder, files, acc).1, files)
    ensures var (res, after) := ConsumeFiles(r, names, folder, files, acc);
      res.Success? ==>
        && after.Keys == files.Keys - Removed(r, names, folder)
        && (forall k :: k in Keys(res.value) <==> k in Keys(acc) || k in names)
        && ReadsAll(r, res.value, names, folder, files)
        && (forall k | k !in names :: Lookup(res.value, k) == Lookup(acc, k))
  {
    ConsumeFilesRemoves(r, names, folder, files, acc);
    ConsumeFilesKeys(r, names, folder, files, acc);
    ConsumeFilesReads(r, names, folder, files, acc);
  }

  /** Consuming files only removes files, and on success exactly the ones the requirement deletes. */
  lemma {:induction false} ConsumeFilesRemoves(r: Requirement, names: seq<string>, folder: Option<string>,
                                               files: map<string, string>, acc: seq<Entry<Content>>)
    ensures Shrunk(ConsumeFiles(r, names, folder, files, acc).1, files)
    ensures ConsumeFiles(r, names, folder, files, acc).0.Success? ==>
      ConsumeFiles(r, names, folder, files, acc).1.Keys == files.Keys - Removed(r, names, folder)
    decreases |names|
  {
    if names != [] {
      var path := PathOf(folder, names[0]);
      var c := ContentOf(r, path, files);
      var d := DeletedIfNeeded(r, path, files);
      if c.Success? && d.Success? {
        ConsumeFilesRemoves(r, names[1..], folder, d.value, Put(acc, names[0], c.value));
        assert names == [names[0]] + names[1..];
        assert Removed(r, names, folder) == (if KeepsFile(r) then {} else {path}) + Removed(r, names[1..], folder);
      }
    }
  }

  /** On success the dict holds the keys it had and the names, and only the names' values change. */
  lemma {:induction false} ConsumeFilesKeys(r: Requirement, names: seq<string>, folder: Option<string>,
                                            files: map<string, string>, acc: seq<Entry<Content>>)
    ensures var res := ConsumeFiles(r, names, folder, files, acc).0;
      res.Success? ==>
        && (forall k :: k in Keys(res.value) <==> k in Keys(acc) || k in names)
        && (forall k | k !in names :: Lookup(res.value, k) == Lookup(acc, k))
    decreases |names|
  {
    if names != [] {
      var path := PathOf(folder, names[0]);
      var c := ContentOf(r, path, files);
      var d := DeletedIfNeeded(r, path, files);
      if c.Success? && d.Success? {
        ConsumeFilesKeys(r, names[1..], folder, d.value, Put(acc, names[0], c.value));
        PutSpec(acc, names[0], c.value);
        assert names == [names[0]] + names[1..];
      }
    }
  }

  /** On success the dict records what was read of every one of the names. */
  lemma {:induction false} ConsumeFilesReads(r: Requirement, names: seq<string>, folder: Option<string>,
                                             files: map<string, string>, acc: seq<Entry<Content>>)
    ensures var res := ConsumeFiles(r, names, folder, files, acc).0;
      res.Success? ==> ReadsAll(r, res.value, names, folder, files)
    decreases |names|
  {
    if names != [] {
      var path := PathOf(folder, names[0]);
      var c := ContentOf(r, path, files);
      var d := DeletedIfNeeded(r, path, files);
      if c.Success? && d.Success? {
        var acc1 := Put(acc, names[0], c.value);
        ConsumeFilesReads(r, names[1..], folder, d.value, acc1);
        ConsumeFilesKeys(r, names[1..], folder, d.value, acc1);
        PutSpec(acc, names[0], c.value);
        var res := ConsumeFiles(r, names[1..], folder, d.value, acc1).0;
        if res.Success? {
          forall k | k in names
            ensures ContentOf(r, PathOf(folder, k), files).Success?
            ensures Lookup(res.value, k) == Some(ContentOf(r, PathOf(folder, k), files).value)
          {
            if k in names[1..] {
              ContentOfShrunk(r, PathOf(folder, k), d.value, files);
            }
          }
        }
      }
    }
  }

  /** A dict built by assignments has no repeated key. */
  lemma {:induction false} ConsumeFilesDistinct(r: Requirement, names: seq<string>, folder: Option<string>,
                                                files: map<string, string>, acc: seq<Entry<Content>>)
    requires NoRepeats(Keys(acc))
    ensures var res := ConsumeFiles(r, names, folder, files, acc).0;
      res.Success? ==> NoRepeats(Keys(res.value))
    decreases |names|
  {
    if names != [] {
      var path := PathOf(folder, names[0]);
      var c := ContentOf(r, path, files);
      var d := DeletedIfNeeded(r, path, files);
      if c.Success? && d.Success? {
        PutDistinct(acc, names[0], c.value);
        ConsumeFilesDistinct(r, names[1..], folder, d.value, Put(acc, names[0], c.value));
      }
    }
  }

  /** Assignment keeps the keys of a dict distinct. */
  lemma PutDistinct<T>(d: seq<Entry<T>>, k: string, v: T)
    requires NoRepeats(Keys(d))
    ensures NoRepeats(Keys(Put(d, k, v)))
  {
    PutSpec(d, k, v);
    if k !in Keys(d) {
      var ks := Keys(d) + [k];
      forall i, j | 0 <= i < j < |ks| ensures ks[i] != ks[j] {
        if j == |ks| - 1 {
          assert ks[i] == Keys(d)[i];
        } else {
          assert ks[i] == Keys(d)[i] && ks[j] == Keys(d)[j];
        }
      }
    }
  }

  /** The entry `e` is requirement `r` with exactly the files `names`, each holding what `r` reads of it on `files`. */
  ghost predicate EntryReads(e: RequirementEntry, r: Requirement, names: seq<string>, folder: Option<string>, files: map<string, string>) {
    && e.requirement == r
    && (forall k :: k in Keys(e.files) <==> k in names)
    && NoRepeats(Keys(e.files))
    && ReadsAll(r, e.files, names, folder, files)
  }

  lemma EntryReadsShrunk(e: RequirementEntry, r: Requirement, names: seq<string>, folder: Option<string>,
                         files: map<string, string>, before: map<string, string>)
    requires Shrunk(files, before) && EntryReads(e, r, names, folder, files)
    ensures EntryReads(e, r, names, folder, before)
  {
    ReadsAllShrunk(r, e.files, names, folder, files, before);
  }

  /** The first requirement's files consumed on their own make the entry the description promises. */
  lemma ConsumeFirst(r: Requirement, names: seq<string>, folder: Option<string>, files: map<string, string>)
    ensures var (res, after) := ConsumeFiles(r, names, folder, files, []);
      && Shrunk(after, files)
      && (res.Success? ==> after.Keys == files.Keys - Removed(r, names, folder) && EntryReads(RequirementEntry(r, res.value), r, names, folder, files))
  {
    ConsumeFilesSpec(r, names, folder, files, []);
    ConsumeFilesDistinct(r, names, folder, files, []);
  }

  /**
   * Consuming the files of the requirements `keys` only removes files, and
   * on success removes the paths they delete and adds one entry per
   * requirement, in order, holding what was read of each of its files.
   */
  lemma ConsumeAllSpec(keys: seq<Requirement>, placed: map<Requirement, seq<string>>, folder: Option<string>,
                       files: map<string, string>, acc: WithContent)
    requires forall r | r in keys :: r in placed
    ensures Shrunk(ConsumeAll(keys, placed, folder, files, acc).1, files)
    ensures var (res, after) := ConsumeAll(keys, placed, folder, files, acc);
      res.Success? ==>
        && after.Keys == files.Keys - RemovedAll(keys, placed, folder)
        && |res.value| == |acc| + |keys| && res.value[..|acc|] == acc
        && forall i | 0 <= i < |keys| :: EntryReads(res.value[|acc| + i], keys[i], placed[keys[i]], folder, files)
  {
    ConsumeAllRemoves(keys, placed, folder, files, acc);
    ConsumeAllEntries(keys, placed, folder, files, acc);
  }

  /** Consuming the files of the requirements `keys` only removes files, on success exactly the ones they delete. */
  lemma {:induction false} ConsumeAllRemoves(keys: seq<Requirement>, placed: map<Requirement, seq<string>>, folder: Option<string>,
                                             files: map<string, string>, acc: WithContent)
    requires forall r | r in keys :: r in placed
    ensures Shrunk(ConsumeAll(keys, placed, folder, files, acc).1, files)
    ensures var (res, after) := ConsumeAll(keys, placed, folder, files, acc);
      res.Success? ==> after.Keys == files.Keys - RemovedAll(keys, placed, folder)
    decreases |keys|
  {
    if keys != [] {
      var (entries, rest) := ConsumeFiles(keys[0], placed[keys[0]], folder, files, []);
      ConsumeFilesRemoves(keys[0], placed[keys[0]], folder, files, []);
      if entries.Success? {
        var acc1 := acc + [RequirementEntry(keys[0], entries.value)];
        ConsumeAllRemoves(keys[1..], placed, folder, rest, acc1);
        assert ConsumeAll(keys, placed, folder, files, acc) == ConsumeAll(keys[1..], placed, folder, rest, acc1);
      }
    }
  }

  /** On success, one entry per requirement of `keys` follows `acc`, in order, each holding what was read of its files. */
  lemma {:induction false} ConsumeAllEntries(keys: seq<Requirement>, placed: map<Requirement, seq<string>>, folder: Option<string>,
                                             files: map<string, string>, acc: WithContent)
    requires forall r | r in keys :: r in placed
    ensures var res := ConsumeAll(keys, placed, folder, files, acc).0;
      res.Success? ==>
        && |res.value| == |acc| + |keys| && res.value[..|acc|] == acc
        && forall i | 0 <= i < |keys| :: EntryReads(res.value[|acc| + i], keys[i], placed[keys[i]], folder, files)
    decreases |keys|
  {
    if keys != [] {
      var (entries, rest) := ConsumeFiles(keys[0], placed[keys[0]], folder, files, []);
      ConsumeFirst(keys[0], placed[keys[0]], folder, files);
      if entries.Success? {
        var acc1 := acc + [RequirementEntry(keys[0], entries.value)];
        ConsumeAllEntries(keys[1..], placed, folder, rest, acc1);
        var res := ConsumeAll(keys[1..], placed, folder, rest, acc1).0;
        assert ConsumeAll(keys, placed, folder, files, acc).0 == res;
        if res.Success? {
          assert res.value[..|acc|] == res.value[..|acc1|][..|acc|];
          forall i | 0 <= i < |keys| ensures EntryReads(res.value[|acc| + i], keys[i], placed[keys[i]], folder, files) {
            if i == 0 {
              assert res.value[|acc|] == res.value[..|acc1|][|acc|];
            } else {
              assert keys[i] == keys[1..][i - 1] && |acc| + i == |acc1| + (i - 1);
              EntryReadsShrunk(res.value[|acc| + i], keys[i], placed[keys[i]], folder, rest, files);
            }
          }
        }
      }
    }
  }

  /** A first match is one of the requirements. */
  lemma {:induction false} FirstMatchIn(reqs: seq<Requirement>, n: string)
    ensures FirstMatch(reqs, n).Some? ==> FirstMatch(reqs, n).value in reqs
  {
    if reqs != [] && !MatchesFile(reqs[0], n) {
      FirstMatchIn(reqs[1..], n);
    }
  }

  /** The paths of the created files whose first matching requirement deletes its files. */
  function DeletedFiles(reqs: seq<Requirement>, created: seq<string>, folder: Option<string>): set<string> {
    set n | n in created && FirstMatch(reqs, n).Some? && !KeepsFile(FirstMatch(reqs, n).value) :: PathOf(folder, n)
  }

  /** The paths of the files of `names` whose first match is one of `keys` and does not keep its files. */
  function DeletedBy(reqs: seq<Requirement>, names: seq<string>, keys: seq<Requirement>, folder: Option<string>): set<string> {
    set n | n in names && FirstMatch(reqs, n).Some? && FirstMatch(reqs, n).value in keys && !KeepsFile(FirstMatch(reqs, n).value)
      :: PathOf(folder, n)
  }

  /** The paths deleted for the first of `keys` together with those deleted for the rest. */
  lemma DeletedByStep(reqs: seq<Requirement>, names: seq<string>, keys: seq<Requirement>, folder: Option<string>)
    requires keys != [] && keys[0] in reqs
    ensures keys[0] in Assigned(reqs, names)
    ensures DeletedBy(reqs, names, keys, folder) ==
      Removed(keys[0], Assigned(reqs, names)[keys[0]], folder) + DeletedBy(reqs, names, keys[1..], folder)
  {
    var under := Under(reqs, names, keys[0]);
    assert Assigned(reqs, names)[keys[0]] == under;
    UnderMembers(reqs, names, keys[0]);
    var rhs := Removed(keys[0], under, folder) + DeletedBy(reqs, names, keys[1..], folder);
    forall p | p in DeletedBy(reqs, names, keys, folder) ensures p in rhs {
      var n :| n in names && FirstMatch(reqs, n).Some? && FirstMatch(reqs, n).value in keys
        && !KeepsFile(FirstMatch(reqs, n).value) && p == PathOf(folder, n);
      if FirstMatch(reqs, n).value == keys[0] {
        assert n in under;
      } else {
        assert FirstMatch(reqs, n).value in keys[1..];
      }
    }
    forall p | p in rhs ensures p in DeletedBy(reqs, names, keys, folder) {
      if p in Removed(keys[0], under, folder) {
        var n :| n in under && p == PathOf(folder, n);
        assert n in names && FirstMatch(reqs, n) == Some(keys[0]);
      } else {
        var n :| n in names && FirstMatch(reqs, n).Some? && FirstMatch(reqs, n).value in keys[1..]
          && !KeepsFile(FirstMatch(reqs, n).value) && p == PathOf(folder, n);
        assert FirstMatch(reqs, n).value in keys;
      }
    }
  }

  /** The requirements `keys` delete the paths of the files whose first match is one of them and does not keep files. */
  lemma {:induction false} RemovedAllIs(reqs: seq<Requirement>, names: seq<string>, keys: seq<Requirement>, folder: Option<string>)
    requires forall r | r in keys :: r in reqs
    ensures forall r | r in keys :: r in Assigned(reqs, names)
    ensures RemovedAll(keys, Assigned(reqs, names), folder) == DeletedBy(reqs, names, keys, folder)
  {
    if keys != [] {
      RemovedAllIs(reqs, names, keys[1..], folder);
      DeletedByStep(reqs, names, keys, folder);
    } else {
      assert DeletedBy(reqs, names, keys, folder) == {};
    }
  }

  /** Sorting the created files does not change which paths are deleted, and every first match is a key. */
  lemma DeletedFilesSorted(reqs: seq<Requirement>, created: seq<string>, folder: Option<string>)
    ensures DeletedFiles(reqs, created, folder) == DeletedBy(reqs, StringOrder.Sort(created), RequirementKeys(reqs), folder)
  {
    StringOrder.SortSameElements(created);
    var keys := RequirementKeys(reqs);
    forall n | n in created ensures FirstMatch(reqs, n).Some? ==> FirstMatch(reqs, n).value in keys {
      FirstMatchIn(reqs, n);
    }
  }

  /** On success, the conversion leaves on disk exactly the files it found less the matched files of the requirements that delete them. */
  lemma ConvertedDisk(reqs: seq<Requirement>, created: seq<string>, folder: Option<string>, files: map<string, string>)
    ensures Shrunk(Converted(reqs, created, folder, files).1, files)
    ensures var (res, after) := Converted(reqs, created, folder, files);
      res.Success? ==> after.Keys == files.Keys - DeletedFiles(reqs, created, folder)
  {
    var keys := RequirementKeys(reqs);
    var sorted := StringOrder.Sort(created);
    var placed := Assigned(reqs, sorted);
    RemovedAllIs(reqs, sorted, keys, folder);
    assert Converted(reqs, created, folder, files) == ConsumeAll(keys, placed, folder, files, []);
    ConsumeAllSpec(keys, placed, folder, files, []);
    DeletedFilesSorted(reqs, created, folder);
  }

  /** The entry `e` holds exactly the created files first matching its requirement, each with what was read of it on `files`. */
  ghost predicate HoldsCreated(e: RequirementEntry, reqs: seq<Requirement>, created: seq<string>, folder: Option<string>,
                               files: map<string, string>) {
    && (forall k :: k in Keys(e.files) <==> k in created && FirstMatch(reqs, k) == Some(e.requirement))
    && NoRepeats(Keys(e.files))
    && ReadsAll(e.requirement, e.files, Keys(e.files), folder, files)
  }

  /**
   * On success, the conversion has one entry per distinct requirement, in
   * declaration order, holding exactly the created files whose first
   * matching requirement it is, each with the content read from disk
   * before anything was deleted.
   */
  lemma ConvertedEntries(reqs: seq<Requirement>, created: seq<string>, folder: Option<string>, files: map<string, string>)
    ensures var res := Converted(reqs, created, folder, files).0;
      res.Success? ==>
        && |res.value| == |RequirementKeys(reqs)|
        && (forall i | 0 <= i < |res.value| :: res.value[i].requirement == RequirementKeys(reqs)[i])
        && (forall e | e in res.value :: HoldsCreated(e, reqs, created, folder, files))
  {
    var keys := RequirementKeys(reqs);
    var placed := Assigned(reqs, StringOrder.Sort(created));
    assert forall r | r in keys :: r in placed;
    var res := Converted(reqs, created, folder, files).0;
    assert res == ConsumeAll(keys, placed, folder, files, []).0;
    if res.Success? {
      ConsumedRequirements(keys, placed, folder, files, res.value);
      forall e | e in res.value ensures HoldsCreated(e, reqs, created, folder, files) {
        var i :| 0 <= i < |res.value| && res.value[i] == e;
        ConsumedEntryAt(keys, placed, folder, files, res.value, i);
        EntryHasCreated(reqs, created, keys[i], e, folder, files);
      }
    }
  }

  lemma ConsumedRequirements(keys: seq<Requirement>, placed: map<Requirement, seq<string>>, folder: Option<string>,
                             files: map<string, string>, res: WithContent)
    requires forall r | r in keys :: r in placed
    requires ConsumeAll(keys, placed, folder, files, []).0 == Success(res)
    ensures |res| == |keys| && forall i | 0 <= i < |res| :: res[i].requirement == keys[i]
  {
    ConsumeAllSpec(keys, placed, folder, files, []);
    forall i | 0 <= i < |res| ensures res[i].requirement == keys[i] {
      assert 0 + i == i;
    }
  }

  lemma ConsumedEntryAt(keys: seq<Requirement>, placed: map<Requirement, seq<string>>, folder: Option<string>,
                        files: map<string, string>, res: WithContent, i: nat)
    requires forall r | r in keys :: r in placed
    requires ConsumeAll(keys, placed, folder, files, []).0 == Success(res) && i < |res|
    ensures |res| == |keys| && EntryReads(res[i], keys[i], placed[keys[i]], folder, files)
  {
    ConsumeAllSpec(keys, placed, folder, files, []);
    assert 0 + i == i;
  }

  lemma EntryHasCreated(reqs: seq<Requirement>, created: seq<string>, r: Requirement, e: RequirementEntry,
                        folder: Option<string>, files: map<string, string>)
    requires EntryReads(e, r, Under(reqs, StringOrder.Sort(created), r), folder, files)
    ensures HoldsCreated(e, reqs, created, folder, files)
  {
    UnderMembers(reqs, StringOrder.Sort(created), r);
    StringOrder.SortSameElements(created);
  }

  /** No string occurs twice. */
  predicate NoRepeats(s: seq<string>) {
    forall i, j | 0 <= i < j < |s| :: s[i] != s[j]
  }

  /** The rest of a list without repeats has none and lacks the head. */
  lemma NoRepeatsTail(names: seq<string>)
    requires names != [] && NoRepeats(names)
    ensures NoRepeats(names[1..]) && names[0] !in names[1..]
  {
    forall i, j | 0 <= i < j < |names| - 1 ensures names[1..][i] != names[1..][j] {
      assert names[1..][i] == names[i + 1] && names[1..][j] == names[j + 1];
    }
  }

  /** A list without repeats holds each string at most once. */
  lemma {:induction false} NoRepeatsCount(s: seq<string>, x: string)
    requires NoRepeats(s)
    ensures multiset(s)[x] <= 1
  {
    if s != [] {
      NoRepeatsTail(s);
      NoRepeatsCount(s[1..], x);
      assert s == [s[0]] + s[1..];
      assert multiset(s) == multiset{s[0]} + multiset(s[1..]);
    }
  }

  /** A list holding each string at most once has no repeats. */
  lemma CountNoRepeats(s: seq<string>)
    requires forall x | x in s :: multiset(s)[x] <= 1
    ensures NoRepeats(s)
  {
    forall i, j | 0 <= i < j < |s| ensures s[i] != s[j] {
      assert s == s[..j] + s[j..];
      assert s[i] in multiset(s[..j]) && s[j] in multiset(s[j..]);
      assert multiset(s) == multiset(s[..j]) + multiset(s[j..]);
      assert s[i] in s;
    }
  }

  /** A file not among `names` keeps its path when they are deleted. */
  lemma NotRemoved(r: Requirement, names: seq<string>, folder: Option<string>, n: string)
    requires n !in names
    ensures PathOf(folder, n) !in Removed(r, names, folder)
  {
  }

  /** Reading and deleting distinct files that are all on disk does not fail. */
  lemma {:induction false} ConsumeFilesSucceeds(r: Requirement, names: seq<string>, folder: Option<string>,
                                                files: map<string, string>, acc: seq<Entry<Content>>)
    requires NoRepeats(names) && forall n | n in names :: PathOf(folder, n) in files
    ensures ConsumeFiles(r, names, folder, files, acc).0.Success?
    decreases |names|
  {
    if names != [] {
      var path := PathOf(folder, names[0]);
      var rest := DeletedIfNeeded(r, path, files).value;
      NoRepeatsTail(names);
      forall n | n in names[1..] ensures PathOf(folder, n) in rest {
        PathOfInjective(folder, n, names[0]);
      }
      ConsumeFilesSucceeds(r, names[1..], folder, rest, Put(acc, names[0], ContentOf(r, path, files).value));
    }
  }

  /** Requirements with disjoint sets of distinct files, all on disk, are consumed without failure. */
  lemma {:induction false} ConsumeAllSucceeds(keys: seq<Requirement>, placed: map<Requirement, seq<string>>, folder: Option<string>,
                                              files: map<string, string>, acc: WithContent)
    requires forall r | r in keys :: r in placed
    requires forall i | 0 <= i < |keys| :: NoRepeats(placed[keys[i]])
    requires forall i, j, n | 0 <= i < j < |keys| && n in placed[keys[i]] :: n !in placed[keys[j]]
    requires forall i, n | 0 <= i < |keys| && n in placed[keys[i]] :: PathOf(folder, n) in files
    ensures ConsumeAll(keys, placed, folder, files, acc).0.Success?
    decreases |keys|
  {
    if keys != [] {
      ConsumeFilesSucceeds(keys[0], placed[keys[0]], folder, files, []);
      ConsumeFirst(keys[0], placed[keys[0]], folder, files);
      var (entries, rest) := ConsumeFiles(keys[0], placed[keys[0]], folder, files, []);
      var tail := keys[1..];
      forall i, n | 0 <= i < |tail| && n in placed[tail[i]] ensures PathOf(folder, n) in rest {
        assert tail[i] == keys[i + 1];
        NotRemoved(keys[0], placed[keys[0]], folder, n);
      }
      forall i, j, n | 0 <= i < j < |tail| && n in placed[tail[i]] ensures n !in placed[tail[j]] {
        assert tail[i] == keys[i + 1] && tail[j] == keys[j + 1];
      }
      forall i | 0 <= i < |tail| ensures NoRepeats(placed[tail[i]]) {
        assert tail[i] == keys[i + 1];
      }
      ConsumeAllSucceeds(tail, placed, folder, rest, acc + [RequirementEntry(keys[0], entries.value)]);
    }
  }

  lemma UnderNoRepeats(reqs: seq<Requirement>, created: seq<string>, r: Requirement)
    requires NoRepeats(created)
    ensures NoRepeats(Under(reqs, StringOrder.Sort(created), r))
  {
    var sorted := StringOrder.Sort(created);
    forall x | x in Under(reqs, sorted, r) ensures multiset(Under(reqs, sorted, r))[x] <= 1 {
      PlacedOnce(reqs, sorted, r, x);
      NoRepeatsCount(created, x);
    }
    CountNoRepeats(Under(reqs, sorted, r));
  }

  lemma UnderHasCreated(reqs: seq<Requirement>, created: seq<string>, r: Requirement, n: string)
    requires n in Under(reqs, StringOrder.Sort(created), r)
    ensures n in created && FirstMatch(reqs, n) == Some(r)
  {
    UnderMembers(reqs, StringOrder.Sort(created), r);
    StringOrder.SortSameElements(created);
  }

  /**
   * The conversion of distinct created files fails only when a matched
   * file is missing from disk: with every matched file present it succeeds.
   */
  lemma ConvertSucceeds(reqs: seq<Requirement>, created: seq<string>, folder: Option<string>, files: map<string, string>)
    requires NoRepeats(created)
    requires forall n | n in created && FirstMatch(reqs, n).Some? :: PathOf(folder, n) in files
    ensures Converted(reqs, created, folder, files).0.Success?
  {
    var keys := RequirementKeys(reqs);
    var sorted := StringOrder.Sort(created);
    var placed := Assigned(reqs, sorted);
    assert forall r | r in keys :: r in placed;
    assert Converted(reqs, created, folder, files).0 == ConsumeAll(keys, placed, folder, files, []).0;
    forall r | r in keys ensures PlacedWell(reqs, placed, r, folder, files) {
      assert placed[r] == Under(reqs, sorted, r);
      UnderNoRepeats(reqs, created, r);
      forall n | n in placed[r] ensures PathOf(folder, n) in files && FirstMatch(reqs, n) == Some(r) {
        UnderHasCreated(reqs, created, r, n);
      }
    }
    PlacedSucceeds(reqs, keys, placed, folder, files);
  }

  /** The files placed under `r` are distinct, on disk, and first matched by `r`. */
  ghost predicate PlacedWell(reqs: seq<Requirement>, placed: map<Requirement, seq<string>>, r: Requirement,
                             folder: Option<string>, files: map<string, string>)
    requires r in placed
  {
    NoRepeats(placed[r]) && forall n | n in placed[r] :: PathOf(folder, n) in files && FirstMatch(reqs, n) == Some(r)
  }

  /** Distinct requirements whose placed files are all well placed are consumed without failure. */
  lemma PlacedSucceeds(reqs: seq<Requirement>, keys: seq<Requirement>, placed: map<Requirement, seq<string>>,
                       folder: Option<string>, files: map<string, string>)
    requires forall r | r in keys :: r in placed
    requires forall i, j | 0 <= i < j < |keys| :: keys[i] != keys[j]
    requires forall r | r in keys :: PlacedWell(reqs, placed, r, folder, files)
    ensures ConsumeAll(keys, placed, folder, files, []).0.Success?
  {
    forall i | 0 <= i < |keys| ensures NoRepeats(placed[keys[i]]) {
      assert PlacedWell(reqs, placed, keys[i], folder, files);
    }
    forall i, n | 0 <= i < |keys| && n in placed[keys[i]]
      ensures PathOf(folder, n) in files && FirstMatch(reqs, n) == Some(keys[i])
    {
      assert PlacedWell(reqs, placed, keys[i], folder, files);
    }
    PlacedDisjoint(reqs, keys, placed);
    ConsumeAllSucceeds(keys, placed, folder, files, []);
  }

  /** Files placed by their first match under distinct requirements are placed under one only. */
  lemma PlacedDisjoint(reqs: seq<Requirement>, keys: seq<Requirement>, placed: map<Requirement, seq<string>>)
    requires forall r | r in keys :: r in placed
    requires forall i, n | 0 <= i < |keys| && n in placed[keys[i]] :: FirstMatch(reqs, n) == Some(keys[i])
    requires forall i, j | 0 <= i < j < |keys| :: keys[i] != keys[j]
    ensures forall i, j, n | 0 <= i < j < |keys| && n in placed[keys[i]] :: n !in placed[keys[j]]
  {
    forall i, j, n | 0 <= i < j < |keys| && n in placed[keys[i]] ensures n !in placed[keys[j]] {
      assert FirstMatch(reqs, n) == Some(keys[i]) != Some(keys[j]);
    }
  }

  // ------------------------------------------------------------ issues about a text file's content

  /** What an output-file content issue reports. */
  datatype ContentIssue =
    | EmptyFile     // the file holds only whitespace
    | TooLongFile   // the file's token count exceeds the budget

  type ContentRunIssue = RunIssue<ContentIssue>

  function ContentIssueOf(filename: string, detail: ContentIssue, problem: CodeProblem): ContentRunIssue {
    RunIssue(Some("Output file content"), Some(filename), Some(problem), None, detail)
  }

  /**
   * `get_issues_for_output_file_content` of a content requirement, given
   * the token count of the content: only a text requirement has checks.
   */
  function IssuesForOutputFileContent(r: Requirement, filename: string, content: string, tokenCount: nat): (issues: seq<ContentRunIssue>)
    requires IsContent(r.kind)
  {
    match r.kind
    case TextContent(maxTokens) =>
      (if |PyText.Strip(content)| == 0 then [ContentIssueOf(filename, EmptyFile, OutputFileContentLevelA)] else [])
      + (if maxTokens.Some? && tokenCount > maxTokens.value then [ContentIssueOf(filename, TooLongFile, OutputFileContentLevelC)] else [])
    case _ => []
  }

  /**
   * A text file gets an empty-file issue exactly when it is all whitespace
   * and a too-long issue exactly when it has a budget and exceeds it; the
   * two are independent, empty comes first, and every issue is about the
   * file in the output-file-content category. Other content kinds get none.
   */
  lemma IssuesForOutputFileContentSpec(r: Requirement, filename: string, content: string, tokenCount: nat)
    requires IsContent(r.kind)
    ensures var issues := IssuesForOutputFileContent(r, filename, content, tokenCount);
      && (!r.kind.TextContent? ==> issues == [])
      && (r.kind.TextContent? ==>
            var empty := PyText.AllSpace(content);
            var long := r.kind.maxTokens.Some? && tokenCount > r.kind.maxTokens.value;
            && (ContentIssueOf(filename, EmptyFile, OutputFileContentLevelA) in issues <==> empty)
            && (ContentIssueOf(filename, TooLongFile, OutputFileContentLevelC) in issues <==> long)
            && |issues| == (if empty then 1 else 0) + (if long then 1 else 0)
            && (empty ==> issues[0].detail == EmptyFile))
      && forall i | i in issues :: i.category == Some("Output file content") && i.item == Some(filename)
  {
    PyText.StripEmptyIffAllSpace(content);
  }

  // ------------------------------------------------------------ display of a content file

  /** The position of the last `c` in `s`, or -1: `s.rfind(c)`. */
  function RFind(s: string, c: char): (i: int)
    ensures -1 <= i < |s|
    ensures i >= 0 ==> s[i] == c
    ensures forall j | i < j < |s| :: s[j] != c
  {
    if s == [] then -1
    else if s[|s| - 1] == c then |s| - 1
    else RFind(s[..|s| - 1], c)
  }

  /** `Path(filename).name`: what follows the last slash. */
  function BaseName(filename: string): (r: string)
    ensures '/' !in r
    ensures |r| <= |filename| && r == filename[|filename| - |r|..]
  {
    filename[RFind(filename, '/') + 1..]
  }

  /** `Path(filename).suffix`: the name from its last dot, when that dot is neither first nor last. */
  function Suffix(filename: string): (r: string)
  {
    var name := BaseName(filename);
    var i := RFind(name, '.');
    if 0 < i < |name| - 1 then name[i..] else ""
  }

  /** `EXTS_TO_LABELS.get(Path(filename).suffix, 'output')` */
  function ExtensionLabel(filename: string): (tag: string) {
    match Suffix(filename)
    case ".tex" => "latex"
    case ".txt" => "output"
    case ".csv" => "csv"
    case _ => "output"
  }

  /**
   * A file name of a non-empty stem and an extension of one dot followed
   * by characters that hold no dot or slash has that extension as its
   * suffix, whatever directory it is in.
   */
  lemma SuffixOf(dir: string, stem: string, ext: string)
    requires stem != [] && '/' !in stem
    requires |ext| >= 2 && ext[0] == '.' && '.' !in ext[1..] && '/' !in ext
    ensures Suffix(dir + stem + ext) == ext
  {
    var tail := stem + ext;
    assert dir + stem + ext == dir + tail;
    assert forall k | 0 <= k < |tail| :: tail[k] != '/' by {
      assert forall c | c in tail :: c in stem || c in ext;
    }
    BaseNameAppend(dir, tail);
    var front := BaseName(dir) + stem;
    assert front + ext == BaseName(dir) + tail;
    LastDot(front, ext);
  }

  /** Characters without a slash extend the base name. */
  lemma BaseNameAppend(dir: string, tail: string)
    requires forall k | 0 <= k < |tail| :: tail[k] != '/'
    ensures BaseName(dir + tail) == BaseName(dir) + tail
  {
    RFindAppend(dir, tail, '/');
    var i := RFind(dir, '/') + 1;
    assert (dir + tail)[i..] == dir[i..] + tail;
  }

  /** In a name ending with such an extension after at least one character, the last dot opens the extension. */
  lemma LastDot(front: string, ext: string)
    requires front != [] && |ext| >= 2 && ext[0] == '.' && '.' !in ext[1..]
    ensures var name := front + ext; RFind(name, '.') == |front| && name[|front|..] == ext
  {
    var name := front + ext;
    forall j | |front| < j < |name| ensures name[j] != '.' {
      assert name[j] == ext[1..][j - |front| - 1];
    }
    RFindLast(name, '.', |front|);
  }

  /** Appending characters other than `c` does not move the last `c`. */
  lemma {:induction false} RFindAppend(a: string, b: string, c: char)
    requires forall k | 0 <= k < |b| :: b[k] != c
    ensures RFind(a + b, c) == RFind(a, c)
  {
    if b != [] {
      var s := a + b;
      assert s[..|s| - 1] == a + b[..|b| - 1];
      RFindAppend(a, b[..|b| - 1], c);
    } else {
      assert a + b == a;
    }
  }

  /** With `c` at `i` and nowhere after, the last `c` is at `i`. */
  lemma {:induction false} RFindLast(s: string, c: char, i: nat)
    requires i < |s| && s[i] == c && forall j | i < j < |s| :: s[j] != c
    ensures RFind(s, c) == i
  {
    if i < |s| - 1 {
      RFindLast(s[..|s| - 1], c, i);
    }
  }

  /** The labels of the mapped extensions, and of any other. */
  lemma ExtensionLabels(dir: string, stem: string, ext: string)
    requires stem != [] && '/' !in stem
    requires |ext| >= 2 && ext[0] == '.' && '.' !in ext[1..] && '/' !in ext
    ensures ExtensionLabel(dir + stem + ext) ==
      if ext == ".tex" then "latex" else if ext == ".csv" then "csv" else "output"
  {
    SuffixOf(dir, stem, ext);
  }

  /** A name holding no dot has no suffix and the default label. */
  lemma NoDotLabel(filename: string)
    requires '.' !in filename
    ensures Suffix(filename) == "" && ExtensionLabel(filename) == "output"
  {
    var name := BaseName(filename);
    assert forall k | 0 <= k < |name| :: name[k] == filename[|filename| - |name| + k];
  }

  /** `str(content)`: a text file's text; how a loaded pickle prints is given by `pickledStr`. */
  function ContentStr(c: Content, pickledStr: string -> string): string {
    match c
    case NoContent => "None"
    case FileText(t) => t
    case Unpickled(d) => pickledStr(d)
  }

  /** What opens the block shown for a file: its quoted name, and a fence tagged by its extension. */
  function BlockHead(filename: string): string {
    "\"" + filename + "\":\n```" + ExtensionLabel(filename) + "\n"
  }

  /** What closes the block. */
  const BlockEnd := "\n```\n"

  /** The fenced block shown for a file. */
  function Block(filename: string, text: string): string {
    BlockHead(filename) + text + BlockEnd
  }

  /**
   * `get_pretty_content`: the content as text, in a block when a file name
   * is given; a numeric text requirement then rounds the floats of the
   * whole, with `roundFloats(text, target, source)` standing for
   * `round_floats`.
   */
  function PrettyContent(r: Requirement, c: Content, filename: Option<string>, pickledStr: string -> string,
                         roundFloats: (string, int, int) -> string): string
    requires IsContent(r.kind)
  {
    var text := ContentStr(c, pickledStr);
    var shown := if filename.Some? then Block(filename.value, text) else text;
    match r.kind
    case NumericTextContent(target, source) => roundFloats(shown, target, source)
    case _ => shown
  }

  /**
   * Apart from the numeric text kind, a block opens with the quoted file
   * name and a fence tagged by the extension label, closes the fence, and
   * holds the content's text unchanged between the two; with no file name
   * the pretty content is the text itself.
   */
  lemma PrettyContentSpec(r: Requirement, c: Content, filename: Option<string>, pickledStr: string -> string,
                          roundFloats: (string, int, int) -> string)
    requires IsContent(r.kind) && !r.kind.NumericTextContent?
    ensures var p := PrettyContent(r, c, filename, pickledStr, roundFloats);
      var text := ContentStr(c, pickledStr);
      if filename.None? then p == text
      else
        var head := BlockHead(filename.value);
        && |p| == |head| + |text| + |BlockEnd|
        && p[..|head|] == head
        && p[|head|..|head| + |text|] == text
        && p[|head| + |text|..] == BlockEnd
  {
    if filename.Some? {
      ThreeParts(BlockHead(filename.value), ContentStr(c, pickledStr), BlockEnd);
    }
  }

  /** The three parts of a concatenation are recovered by slicing. */
  lemma ThreeParts(a: string, b: string, c: string)
    ensures var s := a + b + c;
      s[..|a|] == a && s[|a|..|a| + |b|] == b && s[|a| + |b|..] == c
  {
    var s := a + b + c;
    assert s[..|a|] == a;
    assert s[|a|..|a| + |b|] == b;
  }

  /** The head of a block begins with the quoted file name. */
  lemma BlockHeadNames(filename: string)
    ensures var h := BlockHead(filename);
      |h| > |filename| + 2 && h[0] == '"' && h[1..|filename| + 1] == filename && h[|filename| + 1] == '"'
  {
    var h := BlockHead(filename);
    assert h == "\"" + filename + ("\":\n```" + ExtensionLabel(filename) + "\n");
  }
}
