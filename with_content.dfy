/**
 * `OutputFileRequirementsWithContent`: the requirements in dict order,
 * each with the dict of its created files and what was read of them, and
 * the queries the pipeline asks of it once the code has run.
 */
module OutputFilesWithContent {
  import opened Wrappers
  import opened FileSystem
  import opened OutputFileRequirements
  import Glob

  // ------------------------------------------------------------ the requirements

  /** `convert_to_output_file_requirements`: the requirements, in dict order. */
  function RequirementsOf(w: WithContent): (r: seq<Requirement>)
    ensures |r| == |w| && forall i | 0 <= i < |w| :: r[i] == w[i].requirement
  {
    seq(|w|, i requires 0 <= i < |w| => w[i].requirement)
  }

  /** The converted requirements are the distinct declared requirements, in order of first declaration. */
  lemma ConvertedRequirements(reqs: seq<Requirement>, created: seq<string>, folder: Option<string>, files: map<string, string>)
    ensures var res := Converted(reqs, created, folder, files).0;
      res.Success? ==> RequirementsOf(res.value) == RequirementKeys(reqs)
  {
    ConvertedEntries(reqs, created, folder, files);
  }

  /** Requirements declared once each are their own dict keys: duplicates are all the conversion collapses. */
  lemma {:induction false} RequirementKeysDistinct(reqs: seq<Requirement>)
    requires forall i, j | 0 <= i < j < |reqs| :: reqs[i] != reqs[j]
    ensures RequirementKeys(reqs) == reqs
  {
    if reqs != [] {
      var init := reqs[..|reqs| - 1];
      assert forall i, j | 0 <= i < j < |init| :: init[i] != init[j] by {
        assert forall i | 0 <= i < |init| :: init[i] == reqs[i];
      }
      RequirementKeysDistinct(init);
      assert reqs[|reqs| - 1] !in init by {
        assert forall i | 0 <= i < |init| :: init[i] == reqs[i];
      }
      assert init + [reqs[|reqs| - 1]] == reqs;
    }
  }

  /** `get_single_content_file`, asked of the dict keys. */
  function SingleContentFileOf(w: WithContent): Option<string> {
    SingleContentFile(RequirementsOf(w))
  }

  /**
   * After a successful conversion the single content file is the one of
   * the distinct declared requirements; with each requirement declared
   * once it is the one of the declaration.
   */
  lemma ConvertedSingleContentFile(reqs: seq<Requirement>, created: seq<string>, folder: Option<string>, files: map<string, string>)
    ensures var res := Converted(reqs, created, folder, files).0;
      res.Success? ==> SingleContentFileOf(res.value) == SingleContentFile(RequirementKeys(reqs))
    ensures var res := Converted(reqs, created, folder, files).0;
      res.Success? && (forall i, j | 0 <= i < j < |reqs| :: reqs[i] != reqs[j]) ==>
        SingleContentFileOf(res.value) == SingleContentFile(reqs)
  {
    ConvertedRequirements(reqs, created, folder, files);
    if forall i, j | 0 <= i < j < |reqs| :: reqs[i] != reqs[j] {
      RequirementKeysDistinct(reqs);
    }
  }

  // ------------------------------------------------------------ listing created files

  /** Which created files a listing keeps. */
  datatype Selection =
    | AllFiles                      // `get_all_created_files`
    | ContentFiles(pattern: string) // `get_created_content_files(match_filename)`
    | DataFiles(pattern: string)    // `get_created_data_files(match_filename)`

  predicate Selects(s: Selection, r: Requirement, filename: string) {
    match s
    case AllFiles => true
    case ContentFiles(p) => IsContent(r.kind) && Glob.Matches(filename, p)
    case DataFiles(p) => KeepsFile(r) && Glob.Matches(filename, p)
  }

  /** The names of `names` the selection keeps under requirement `r`, in order. */
  function SelectedNames(s: Selection, r: Requirement, names: seq<string>): (out: seq<string>)
    ensures forall x :: x in out <==> x in names && Selects(s, r, x)
  {
    if names == [] then []
    else (if Selects(s, r, names[0]) then [names[0]] else []) + SelectedNames(s, r, names[1..])
  }

  /** The list comprehension over the requirements and their files' names, in dict order. */
  function Selected(w: WithContent, s: Selection): seq<string> {
    if w == [] then []
    else SelectedNames(s, w[0].requirement, Keys(w[0].files)) + Selected(w[1..], s)
  }

  /** A name is listed exactly when some entry holds it and the selection keeps it under that entry's requirement. */
  lemma {:induction false} SelectedMembers(w: WithContent, s: Selection, x: string)
    ensures x in Selected(w, s) <==>
      exists i | 0 <= i < |w| :: x in Keys(w[i].files) && Selects(s, w[i].requirement, x)
  {
    if w != [] {
      SelectedMembers(w[1..], s, x);
      if x in Selected(w[1..], s) {
        var i :| 0 <= i < |w| - 1 && x in Keys(w[1..][i].files) && Selects(s, w[1..][i].requirement, x);
        assert w[i + 1] == w[1..][i];
      }
      if exists i | 0 <= i < |w| :: x in Keys(w[i].files) && Selects(s, w[i].requirement, x) {
        var i :| 0 <= i < |w| && x in Keys(w[i].files) && Selects(s, w[i].requirement, x);
        if i > 0 {
          assert w[1..][i - 1] == w[i];
        }
      }
    }
  }

  function AllCreatedFiles(w: WithContent): seq<string> {
    Selected(w, AllFiles)
  }

  function CreatedContentFiles(w: WithContent, pattern: string): seq<string> {
    Selected(w, ContentFiles(pattern))
  }

  function CreatedDataFiles(w: WithContent, pattern: string): seq<string> {
    Selected(w, DataFiles(pattern))
  }

  /**
   * After a successful conversion a name is listed exactly when it was
   * created, some requirement matches it, and the selection keeps it under
   * its first matching requirement: every matched file is listed, an
   * unmatched one never; the data files are those whose requirement keeps
   * its files.
   */
  lemma ConvertedSelected(reqs: seq<Requirement>, created: seq<string>, folder: Option<string>, files: map<string, string>,
                          s: Selection, x: string)
    ensures var res := Converted(reqs, created, folder, files).0;
      res.Success? ==>
        (x in Selected(res.value, s) <==>
           x in created && FirstMatch(reqs, x).Some? && Selects(s, FirstMatch(reqs, x).value, x))
  {
    var res := Converted(reqs, created, folder, files).0;
    if res.Success? {
      var w := res.value;
      ConvertedEntries(reqs, created, folder, files);
      SelectedMembers(w, s, x);
      if x in Selected(w, s) {
        var i :| 0 <= i < |w| && x in Keys(w[i].files) && Selects(s, w[i].requirement, x);
        assert w[i] in w;
      }
      if x in created && FirstMatch(reqs, x).Some? && Selects(s, FirstMatch(reqs, x).value, x) {
        var r := FirstMatch(reqs, x).value;
        FirstMatchIn(reqs, x);
        var keys := RequirementKeys(reqs);
        var i :| 0 <= i < |keys| && keys[i] == r;
        assert w[i] in w && w[i].requirement == r;
      }
    }
  }

  /** The three listings as the source names them, after a successful conversion. */
  lemma ConvertedListings(reqs: seq<Requirement>, created: seq<string>, folder: Option<string>, files: map<string, string>,
                          pattern: string, x: string)
    ensures var res := Converted(reqs, created, folder, files).0;
      res.Success? ==>
        && (x in AllCreatedFiles(res.value) <==> x in created && FirstMatch(reqs, x).Some?)
        && (x in CreatedContentFiles(res.value, pattern) <==>
              x in created && FirstMatch(reqs, x).Some? && IsContent(FirstMatch(reqs, x).value.kind) && Glob.Matches(x, pattern))
        && (x in CreatedDataFiles(res.value, pattern) <==>
              x in created && FirstMatch(reqs, x).Some? && KeepsFile(FirstMatch(reqs, x).value) && Glob.Matches(x, pattern))
  {
    ConvertedSelected(reqs, created, folder, files, AllFiles, x);
    ConvertedSelected(reqs, created, folder, files, ContentFiles(pattern), x);
    ConvertedSelected(reqs, created, folder, files, DataFiles(pattern), x);
  }

  // ------------------------------------------------------------ contents of the created content files

  /** A value of the contents dict: the content as read, or its pretty text. */
  datatype Shown = Raw(content: Content) | Pretty(text: string)

  /** How the contents dict shows files: pretty or raw, in a block or not, with the display of pickles and floats given. */
  datatype Display = Display(isPretty: bool, isBlock: bool, pickledStr: string -> string, roundFloats: (string, int, int) -> string)

  /** What the contents dict holds for a file of content requirement `r`. */
  function ShownContent(r: Requirement, filename: string, c: Content, d: Display): Shown
    requires IsContent(r.kind)
  {
    if d.isPretty then Pretty(PrettyContent(r, c, if d.isBlock then Some(filename) else None, d.pickledStr, d.roundFloats))
    else Raw(c)
  }

  /** One step of the inner loop: a selected file is assigned its shown content. */
  function ShowOne(r: Requirement, e: Entry<Content>, pattern: string, d: Display, acc: seq<Entry<Shown>>): seq<Entry<Shown>> {
    if IsContent(r.kind) && Glob.Matches(e.key, pattern) then Put(acc, e.key, ShownContent(r, e.key, e.value, d)) else acc
  }

  /** The inner loop over one requirement's files. */
  function ShowFiles(r: Requirement, fs: seq<Entry<Content>>, pattern: string, d: Display, acc: seq<Entry<Shown>>): seq<Entry<Shown>>
    decreases |fs|
  {
    if fs == [] then acc else ShowFiles(r, fs[1..], pattern, d, ShowOne(r, fs[0], pattern, d, acc))
  }

  /** The outer loop over the requirements, in dict order. */
  function ShowAll(w: WithContent, pattern: string, d: Display, acc: seq<Entry<Shown>>): seq<Entry<Shown>>
    decreases |w|
  {
    if w == [] then acc else ShowAll(w[1..], pattern, d, ShowFiles(w[0].requirement, w[0].files, pattern, d, acc))
  }

  /**
   * `_get_created_content_files_to_contents`: the contents, pretty or not,
   * of the created content files whose names match `pattern`.
   */
  method CreatedContentFilesToContents(w: WithContent, pattern: string, d: Display) returns (result: seq<Entry<Shown>>)
    ensures result == ShowAll(w, pattern, d, [])
  {
    result := [];
    for i := 0 to |w|
      invariant ShowAll(w[i..], pattern, d, result) == ShowAll(w, pattern, d, [])
    {
      var r := w[i].requirement;
      var fs := w[i].files;
      ghost var start := result;
      for j := 0 to |fs|
        invariant ShowFiles(r, fs[j..], pattern, d, result) == ShowFiles(r, fs, pattern, d, start)
      {
        if IsContent(r.kind) && Glob.Matches(fs[j].key, pattern) {
          var shown := ShownContent(r, fs[j].key, fs[j].value, d);
          result := Put(result, fs[j].key, shown);
        }
        assert fs[j..][1..] == fs[j + 1..];
      }
      assert fs[|fs|..] == [];
      assert w[i..][1..] == w[i + 1..];
    }
  }

  /** `get_created_content_files_to_pretty_contents` */
  method CreatedContentFilesToPrettyContents(w: WithContent, pattern: string, isBlock: bool,
                                             pickledStr: string -> string, roundFloats: (string, int, int) -> string)
    returns (result: seq<Entry<Shown>>)
    ensures result == ShowAll(w, pattern, Display(true, isBlock, pickledStr, roundFloats), [])
  {
    result := CreatedContentFilesToContents(w, pattern, Display(true, isBlock, pickledStr, roundFloats));
  }

  /** `get_created_content_files_to_contents`: the contents as read. */
  method CreatedContentFilesToRawContents(w: WithContent, pattern: string, pickledStr: string -> string,
                                          roundFloats: (string, int, int) -> string)
    returns (result: seq<Entry<Shown>>)
    ensures result == ShowAll(w, pattern, Display(false, false, pickledStr, roundFloats), [])
  {
    result := CreatedContentFilesToContents(w, pattern, Display(false, false, pickledStr, roundFloats));
  }

  /** Assigning into a dict makes exactly the new key present besides the old ones. */
  lemma PutKeys<T>(acc: seq<Entry<T>>, k: string, v: T)
    ensures forall x :: x in Keys(Put(acc, k, v)) <==> x in Keys(acc) || x == k
  {
    PutSpec(acc, k, v);
  }

  /** One step adds the file's name as a key when it is selected, and changes no other key's value. */
  lemma ShowOneSpec(r: Requirement, e: Entry<Content>, pattern: string, d: Display, acc: seq<Entry<Shown>>)
    ensures forall x :: x in Keys(ShowOne(r, e, pattern, d, acc)) <==>
      x in Keys(acc) || (x == e.key && IsContent(r.kind) && Glob.Matches(e.key, pattern))
    ensures forall x | x != e.key :: Lookup(ShowOne(r, e, pattern, d, acc), x) == Lookup(acc, x)
    ensures IsContent(r.kind) && Glob.Matches(e.key, pattern) ==>
      Lookup(ShowOne(r, e, pattern, d, acc), e.key) == Some(ShownContent(r, e.key, e.value, d))
  {
    if IsContent(r.kind) && Glob.Matches(e.key, pattern) {
      PutSpec(acc, e.key, ShownContent(r, e.key, e.value, d));
    }
  }

  /** The inner loop adds the selected names of the entry's files as keys. */
  lemma {:induction false} ShowFilesKeys(r: Requirement, fs: seq<Entry<Content>>, pattern: string, d: Display,
                                         acc: seq<Entry<Shown>>, x: string)
    ensures x in Keys(ShowFiles(r, fs, pattern, d, acc)) <==>
      x in Keys(acc) || x in SelectedNames(ContentFiles(pattern), r, Keys(fs))
    decreases |fs|
  {
    if fs != [] {
      ShowOneSpec(r, fs[0], pattern, d, acc);
      ShowFilesKeys(r, fs[1..], pattern, d, ShowOne(r, fs[0], pattern, d, acc), x);
      assert Keys(fs) == [fs[0].key] + Keys(fs[1..]);
    }
  }

  lemma {:induction false} ShowAllKeys(w: WithContent, pattern: string, d: Display, acc: seq<Entry<Shown>>, x: string)
    ensures x in Keys(ShowAll(w, pattern, d, acc)) <==> x in Keys(acc) || x in CreatedContentFiles(w, pattern)
    decreases |w|
  {
    if w != [] {
      var next := ShowFiles(w[0].requirement, w[0].files, pattern, d, acc);
      ShowFilesKeys(w[0].requirement, w[0].files, pattern, d, acc, x);
      ShowAllKeys(w[1..], pattern, d, next, x);
    }
  }

  /** The contents dict has a key exactly for each created content file whose name matches. */
  lemma ContentsKeys(w: WithContent, pattern: string, d: Display, x: string)
    ensures x in Keys(ShowAll(w, pattern, d, [])) <==> x in CreatedContentFiles(w, pattern)
  {
    ShowAllKeys(w, pattern, d, [], x);
  }

  /** The inner loop leaves alone every key its files do not hold. */
  lemma {:induction false} ShowFilesOthers(r: Requirement, fs: seq<Entry<Content>>, pattern: string, d: Display,
                                           acc: seq<Entry<Shown>>, x: string)
    requires x !in Keys(fs)
    ensures Lookup(ShowFiles(r, fs, pattern, d, acc), x) == Lookup(acc, x)
    decreases |fs|
  {
    if fs != [] {
      assert Keys(fs) == [fs[0].key] + Keys(fs[1..]);
      ShowOneSpec(r, fs[0], pattern, d, acc);
      ShowFilesOthers(r, fs[1..], pattern, d, ShowOne(r, fs[0], pattern, d, acc), x);
    }
  }

  /** The rest of a dict without repeated keys has none and lacks the first key. */
  lemma KeysTail<T>(fs: seq<Entry<T>>)
    requires fs != [] && NoRepeats(Keys(fs))
    ensures NoRepeats(Keys(fs[1..])) && fs[0].key !in Keys(fs[1..])
  {
    NoRepeatsTail(Keys(fs));
    assert Keys(fs)[1..] == Keys(fs[1..]);
  }

  /** The inner loop stores the shown content of a selected file its distinct-keyed dict holds. */
  lemma {:induction false} ShowFilesValue(r: Requirement, fs: seq<Entry<Content>>, pattern: string, d: Display,
                                          acc: seq<Entry<Shown>>, j: nat)
    requires j < |fs| && NoRepeats(Keys(fs))
    requires IsContent(r.kind) && Glob.Matches(fs[j].key, pattern)
    ensures Lookup(ShowFiles(r, fs, pattern, d, acc), fs[j].key) == Some(ShownContent(r, fs[j].key, fs[j].value, d))
    decreases |fs|
  {
    var next := ShowOne(r, fs[0], pattern, d, acc);
    KeysTail(fs);
    if j == 0 {
      ShowOneSpec(r, fs[0], pattern, d, acc);
      ShowFilesOthers(r, fs[1..], pattern, d, next, fs[0].key);
    } else {
      assert fs[1..][j - 1] == fs[j];
      ShowFilesValue(r, fs[1..], pattern, d, next, j - 1);
    }
  }

  /** The outer loop leaves alone every key no entry holds. */
  lemma {:induction false} ShowAllOthers(w: WithContent, pattern: string, d: Display, acc: seq<Entry<Shown>>, x: string)
    requires forall i | 0 <= i < |w| :: x !in Keys(w[i].files)
    ensures Lookup(ShowAll(w, pattern, d, acc), x) == Lookup(acc, x)
    decreases |w|
  {
    if w != [] {
      ShowFilesOthers(w[0].requirement, w[0].files, pattern, d, acc, x);
      assert forall i | 0 <= i < |w| - 1 :: w[1..][i] == w[i + 1];
      ShowAllOthers(w[1..], pattern, d, ShowFiles(w[0].requirement, w[0].files, pattern, d, acc), x);
    }
  }

  /**
   * A file that only entry `i` holds, once, under a content requirement
   * and matching the pattern, is shown with its own content.
   */
  lemma {:induction false} ShowAllValue(w: WithContent, pattern: string, d: Display, acc: seq<Entry<Shown>>, i: nat, j: nat)
    requires i < |w| && j < |w[i].files| && NoRepeats(Keys(w[i].files))
    requires IsContent(w[i].requirement.kind) && Glob.Matches(w[i].files[j].key, pattern)
    requires forall k | 0 <= k < |w| && k != i :: w[i].files[j].key !in Keys(w[k].files)
    ensures Lookup(ShowAll(w, pattern, d, acc), w[i].files[j].key) ==
      Some(ShownContent(w[i].requirement, w[i].files[j].key, w[i].files[j].value, d))
    decreases |w|
  {
    var next := ShowFiles(w[0].requirement, w[0].files, pattern, d, acc);
    assert forall k | 0 <= k < |w| - 1 :: w[1..][k] == w[k + 1];
    if i == 0 {
      ShowFilesValue(w[0].requirement, w[0].files, pattern, d, acc, j);
      ShowAllOthers(w[1..], pattern, d, next, w[0].files[j].key);
    } else {
      ShowFilesOthers(w[0].requirement, w[0].files, pattern, d, acc, w[i].files[j].key);
      ShowAllValue(w[1..], pattern, d, next, i - 1, j);
    }
  }

  /**
   * After a successful conversion, the contents dict maps each created
   * content file that matches the pattern to what its first matching
   * requirement read of it, shown as asked; it has no other keys.
   */
  lemma ConvertedContents(reqs: seq<Requirement>, created: seq<string>, folder: Option<string>, files: map<string, string>,
                          pattern: string, d: Display, x: string)
    ensures var res := Converted(reqs, created, folder, files).0;
      res.Success? ==>
        var shown := ShowAll(res.value, pattern, d, []);
        && (Lookup(shown, x).Some? <==>
              x in created && FirstMatch(reqs, x).Some? && IsContent(FirstMatch(reqs, x).value.kind) && Glob.Matches(x, pattern))
        && (Lookup(shown, x).Some? ==>
              var r := FirstMatch(reqs, x).value;
              && ContentOf(r, PathOf(folder, x), files).Success?
              && Lookup(shown, x) == Some(ShownContent(r, x, ContentOf(r, PathOf(folder, x), files).value, d)))
  {
    var res := Converted(reqs, created, folder, files).0;
    if res.Success? {
      var w := res.value;
      var shown := ShowAll(w, pattern, d, []);
      ContentsKeys(w, pattern, d, x);
      LookupKeys(shown, x);
      ConvertedSelected(reqs, created, folder, files, ContentFiles(pattern), x);
      if Lookup(shown, x).Some? {
        ConvertedShown(reqs, created, folder, files, pattern, d, x);
      }
    }
  }

  lemma ConvertedShown(reqs: seq<Requirement>, created: seq<string>, folder: Option<string>, files: map<string, string>,
                       pattern: string, d: Display, x: string)
    requires Converted(reqs, created, folder, files).0.Success?
    requires x in created && FirstMatch(reqs, x).Some? && IsContent(FirstMatch(reqs, x).value.kind) && Glob.Matches(x, pattern)
    ensures var r := FirstMatch(reqs, x).value;
      && ContentOf(r, PathOf(folder, x), files).Success?
      && Lookup(ShowAll(Converted(reqs, created, folder, files).0.value, pattern, d, []), x) ==
           Some(ShownContent(r, x, ContentOf(r, PathOf(folder, x), files).value, d))
  {
    var w := Converted(reqs, created, folder, files).0.value;
    var r := FirstMatch(reqs, x).value;
    ConvertedEntries(reqs, created, folder, files);
    FirstMatchIn(reqs, x);
    var keys := RequirementKeys(reqs);
    var i :| 0 <= i < |keys| && keys[i] == r;
    ShownOfEntry(w, reqs, created, folder, files, pattern, d, x, i);
  }

  /** Entry `i`, holding the created files first matching its requirement, shows the content read of `x`. */
  lemma ShownOfEntry(w: WithContent, reqs: seq<Requirement>, created: seq<string>, folder: Option<string>, files: map<string, string>,
                     pattern: string, d: Display, x: string, i: nat)
    requires i < |w| && forall e | e in w :: HoldsCreated(e, reqs, created, folder, files)
    requires forall k | 0 <= k < |w| && k != i :: w[k].requirement != w[i].requirement
    requires x in created && FirstMatch(reqs, x) == Some(w[i].requirement)
    requires IsContent(w[i].requirement.kind) && Glob.Matches(x, pattern)
    ensures var r := w[i].requirement;
      && ContentOf(r, PathOf(folder, x), files).Success?
      && Lookup(ShowAll(w, pattern, d, []), x) == Some(ShownContent(r, x, ContentOf(r, PathOf(folder, x), files).value, d))
  {
    assert w[i] in w && HoldsCreated(w[i], reqs, created, folder, files);
    var j :| 0 <= j < |w[i].files| && Keys(w[i].files)[j] == x;
    forall k | 0 <= k < |w| && k != i ensures x !in Keys(w[k].files) {
      assert w[k] in w && HoldsCreated(w[k], reqs, created, folder, files);
    }
    ShowAllValue(w, pattern, d, [], i, j);
    LookupAt(w[i].files, j);
  }

  /** In a dict without repeated keys, each key finds its own entry. */
  lemma {:induction false} LookupAt<T>(d: seq<Entry<T>>, j: nat)
    requires j < |d| && NoRepeats(Keys(d))
    ensures Lookup(d, d[j].key) == Some(d[j].value)
  {
    if j > 0 {
      NoRepeatsTail(Keys(d));
      assert Keys(d)[1..] == Keys(d[1..]);
      assert d[1..][j - 1] == d[j];
      assert Keys(d)[0] != Keys(d)[j];
      LookupAt(d[1..], j - 1);
    }
  }

  // ------------------------------------------------------------ the single output and the description

  /** The `KeyError` raised when the single content file is not among the contents. */
  datatype KeyError = KeyError(key: string)

  /** What `get_single_output` gives. */
  function SingleOutput(w: WithContent, d: Display): Result<Option<Shown>, KeyError> {
    match SingleContentFileOf(w)
    case None => Success(None)
    case Some(f) =>
      match Lookup(ShowAll(w, "*", Display(d.isPretty, false, d.pickledStr, d.roundFloats), []), f)
      case None => Failure(KeyError(f))
      case Some(v) => Success(Some(v))
  }

  /** `get_single_output`: the contents of the single content file, if there is one. */
  method GetSingleOutput(w: WithContent, d: Display) returns (r: Result<Option<Shown>, KeyError>)
    ensures r == SingleOutput(w, d)
  {
    var single := SingleContentFileOf(w);
    if single.None? {
      return Success(None);
    }
    var contents := CreatedContentFilesToContents(w, "*", Display(d.isPretty, false, d.pickledStr, d.roundFloats));
    var v := Lookup(contents, single.value);
    if v.None? {
      r := Failure(KeyError(single.value));
    } else {
      r := Success(v);
    }
  }

  /**
   * `get_single_output` fails exactly when there is a single content file
   * but it is not among the created content files, and then names it.
   */
  lemma SingleOutputSpec(w: WithContent, d: Display)
    ensures SingleContentFileOf(w).None? ==> SingleOutput(w, d) == Success(None)
    ensures SingleOutput(w, d).Failure? <==>
      SingleContentFileOf(w).Some? && SingleContentFileOf(w).value !in CreatedContentFiles(w, "*")
    ensures SingleOutput(w, d).Failure? ==> SingleOutput(w, d).error == KeyError(SingleContentFileOf(w).value)
  {
    if SingleContentFileOf(w).Some? {
      var f := SingleContentFileOf(w).value;
      var shown := ShowAll(w, "*", Display(d.isPretty, false, d.pickledStr, d.roundFloats), []);
      ContentsKeys(w, "*", Display(d.isPretty, false, d.pickledStr, d.roundFloats), f);
      LookupKeys(shown, f);
    }
  }

  /** The values of a dict, in order. */
  function Values<T>(d: seq<Entry<T>>): (r: seq<T>)
    ensures |r| == |d| && forall i | 0 <= i < |d| :: r[i] == d[i].value
  {
    seq(|d|, i requires 0 <= i < |d| => d[i].value)
  }

  /** The text of a shown value; a raw content has none to join. */
  function TextOf(s: Shown): string {
    match s
    case Pretty(t) => t
    case Raw(_) => ""
  }

  /** `sep.join(parts)` */
  function Join(sep: string, parts: seq<string>): (r: string)
    ensures parts == [] ==> r == ""
    ensures |parts| == 1 ==> r == parts[0]
  {
    if parts == [] then ""
    else if |parts| == 1 then parts[0]
    else parts[0] + sep + Join(sep, parts[1..])
  }

  /** What `get_created_content_files_description` gives. */
  function Description(w: WithContent, pattern: string, pickledStr: string -> string, roundFloats: (string, int, int) -> string): string {
    var shown := ShowAll(w, pattern, Display(true, true, pickledStr, roundFloats), []);
    Join("\n\n", seq(|shown|, i requires 0 <= i < |shown| => TextOf(shown[i].value)))
  }

  /** `get_created_content_files_description`: the blocks of the matching content files, separated by blank lines. */
  method CreatedContentFilesDescription(w: WithContent, pattern: string, pickledStr: string -> string,
                                        roundFloats: (string, int, int) -> string) returns (text: string)
    ensures text == Description(w, pattern, pickledStr, roundFloats)
  {
    var shown := CreatedContentFilesToPrettyContents(w, pattern, true, pickledStr, roundFloats);
    text := Join("\n\n", seq(|shown|, i requires 0 <= i < |shown| => TextOf(shown[i].value)));
  }

  /**
   * The description is empty when no created content file matches; with
   * exactly one file it is that file's block.
   */
  lemma DescriptionSpec(w: WithContent, pattern: string, pickledStr: string -> string, roundFloats: (string, int, int) -> string)
    ensures CreatedContentFiles(w, pattern) == [] ==> Description(w, pattern, pickledStr, roundFloats) == ""
    ensures var shown := ShowAll(w, pattern, Display(true, true, pickledStr, roundFloats), []);
      |shown| == 1 ==> Description(w, pattern, pickledStr, roundFloats) == TextOf(shown[0].value)
  {
    var shown := ShowAll(w, pattern, Display(true, true, pickledStr, roundFloats), []);
    if CreatedContentFiles(w, pattern) == [] && shown != [] {
      assert Keys(shown)[0] == shown[0].key;
      ContentsKeys(w, pattern, Display(true, true, pickledStr, roundFloats), shown[0].key);
    }
  }

  // ------------------------------------------------------------ deleting the kept files

  /** Removing the paths in order; the first missing one raises and stops the loop. */
  function RemoveAll(paths: seq<string>, files: map<string, string>): (Result<(), OsError>, map<string, string>)
    decreases |paths|
  {
    if paths == [] then (Success(()), files)
    else if paths[0] !in files then (Failure(FileNotFoundError), files)
    else RemoveAll(paths[1..], files - {paths[0]})
  }

  /** The paths of the kept created files. */
  function DataPaths(w: WithContent, folder: Option<string>): (r: seq<string>)
    ensures |r| == |CreatedDataFiles(w, "*")|
    ensures forall i | 0 <= i < |r| :: r[i] == PathOf(folder, CreatedDataFiles(w, "*")[i])
  {
    var names := CreatedDataFiles(w, "*");
    seq(|names|, i requires 0 <= i < |names| => PathOf(folder, names[i]))
  }

  /** `delete_all_created_files`: each kept created file is removed. */
  method DeleteAllCreatedFiles(w: WithContent, folder: Option<string>, disk: Disk) returns (r: Result<(), OsError>)
    modifies disk
    ensures (r, disk.files) == RemoveAll(DataPaths(w, folder), old(disk.files))
  {
    var names := CreatedDataFiles(w, "*");
    var paths := DataPaths(w, folder);
    for i := 0 to |names|
      invariant RemoveAll(paths[i..], disk.files) == RemoveAll(paths, old(disk.files))
    {
      assert paths[i..][0] == paths[i] && paths[i..][1..] == paths[i + 1..];
      var removed := disk.Remove(PathOf(folder, names[i]));
      if removed.Failure? {
        return removed;
      }
    }
    r := Success(());
  }

  /**
   * Removing paths succeeds exactly when they are distinct and all on
   * disk, and then leaves exactly the other files; a failure leaves the
   * disk having lost only the paths before the missing one.
   */
  lemma {:induction false} RemoveAllSpec(paths: seq<string>, files: map<string, string>)
    ensures Shrunk(RemoveAll(paths, files).1, files)
    ensures RemoveAll(paths, files).0.Success? <==> NoRepeats(paths) && forall p | p in paths :: p in files
    ensures RemoveAll(paths, files).0.Success? ==> RemoveAll(paths, files).1.Keys == files.Keys - set p | p in paths
    decreases |paths|
  {
    if paths != [] {
      var rest := files - {paths[0]};
      RemoveAllSpec(paths[1..], rest);
      if paths[0] in files {
        if NoRepeats(paths) {
          NoRepeatsTail(paths);
        } else {
          RemoveRepeated(paths, files);
        }
        assert (set p | p in paths) == {paths[0]} + set p | p in paths[1..];
      }
    }
  }

  /** A list with a repeat, whose head is on disk, has its tail fail on the smaller disk. */
  lemma RemoveRepeated(paths: seq<string>, files: map<string, string>)
    requires paths != [] && !NoRepeats(paths)
    ensures !(NoRepeats(paths[1..]) && forall p | p in paths[1..] :: p in files - {paths[0]})
  {
    var i, j :| 0 <= i < j < |paths| && paths[i] == paths[j];
    if i == 0 {
      assert paths[1..][j - 1] == paths[0];
      assert paths[0] in paths[1..];
    } else {
      assert paths[1..][i - 1] == paths[1..][j - 1];
    }
  }

  /** Paths of distinct names in one folder are distinct. */
  lemma PathsDistinct(folder: Option<string>, names: seq<string>, paths: seq<string>)
    requires |paths| == |names| && forall i | 0 <= i < |names| :: paths[i] == PathOf(folder, names[i])
    ensures NoRepeats(paths) <==> NoRepeats(names)
  {
    forall i, j | 0 <= i < j < |names| ensures paths[i] == paths[j] <==> names[i] == names[j] {
      PathOfInjective(folder, names[i], names[j]);
    }
  }

  /**
   * Deleting all created files succeeds exactly when the kept created
   * files are listed once each and are all on disk.
   */
  lemma DeleteAllSpec(w: WithContent, folder: Option<string>, files: map<string, string>)
    ensures var names := CreatedDataFiles(w, "*");
      RemoveAll(DataPaths(w, folder), files).0.Success? <==>
        NoRepeats(names) && forall n | n in names :: PathOf(folder, n) in files
  {
    var names := CreatedDataFiles(w, "*");
    var paths := DataPaths(w, folder);
    RemoveAllSpec(paths, files);
    PathsDistinct(folder, names, paths);
    assert forall n | n in names :: PathOf(folder, n) in paths by {
      forall n | n in names ensures PathOf(folder, n) in paths {
        var i :| 0 <= i < |names| && names[i] == n;
        assert paths[i] == PathOf(folder, n);
      }
    }
  }
}
