/**
 * The part of the operating system the output-file code touches: a
 * directory tree held as the text of each file by path, with `open` for
 * reading and `os.remove`.
 */
module FileSystem {
  import opened Wrappers

  /** The exceptions the file operations raise. */
  datatype OsError =
    | FileNotFoundError
    | TypeError     // `os.remove(None)`: a path that is not a string

  /** The files on disk, by path. */
  class Disk {
    var files: map<string, string>

    constructor(files: map<string, string>)
      ensures this.files == files
    {
      this.files := files;
    }

    /** `os.remove(path)`: the file goes, or `FileNotFoundError` is raised and nothing changes. */
    method Remove(path: string) returns (r: Result<(), OsError>)
      modifies this
      ensures path in old(files) ==> r == Success(()) && files == old(files) - {path}
      ensures path !in old(files) ==> r == Failure(FileNotFoundError) && files == old(files)
    {
      if path in files {
        files := files - {path};
        r := Success(());
      } else {
        r := Failure(FileNotFoundError);
      }
    }

    /** `open(path, 'r').read()` */
    method Read(path: string) returns (r: Result<string, OsError>)
      ensures r == ReadFrom(files, path)
    {
      if path in files {
        r := Success(files[path]);
      } else {
        r := Failure(FileNotFoundError);
      }
    }
  }

  /** What reading `path` from the files `files` gives. */
  function ReadFrom(files: map<string, string>, path: string): (r: Result<string, OsError>)
    ensures r.Success? <==> path in files
    ensures r.Success? ==> r.value == files[path]
  {
    if path in files then Success(files[path]) else Failure(FileNotFoundError)
  }

  /**
   * `run_folder / name if run_folder else name`, for a relative `name`: the
   * folder and the name joined by a slash.
   */
  function PathOf(folder: Option<string>, name: string): (r: string)
    ensures folder.None? ==> r == name
    ensures folder.Some? ==> |r| == |folder.value| + 1 + |name| && r[|folder.value| + 1..] == name
  {
    match folder
    case None => name
    case Some(d) => d + "/" + name
  }

  /** Two names in one folder give the same path exactly when they are the same name. */
  lemma PathOfInjective(folder: Option<string>, a: string, b: string)
    ensures PathOf(folder, a) == PathOf(folder, b) <==> a == b
  {
  }

  /** `files` holds nothing that `before` did not hold with the same text: files were only removed. */
  predicate Shrunk(files: map<string, string>, before: map<string, string>) {
    forall p | p in files :: p in before && files[p] == before[p]
  }
}
