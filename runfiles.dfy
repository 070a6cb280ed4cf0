/**
 * `minimal_runfiles`: resolve an rlocationpath by trying, in this order, the
 * `RUNFILES_DIR` tree, the `TEST_SRCDIR` tree and the manifest file named by
 * `RUNFILES_MANIFEST_FILE`. A variable that is unset or empty is skipped; a
 * directory in which the joined path does not exist hands over to the next
 * source; when every source comes up empty the lookup fails.
 *
 * Everything the Python code asks of the process and the file system is an
 * explicit input, collected in `World`.
 */
module Runfiles {
  import opened Wrappers
  import opened PyStr
  import opened Manifest

  const RunfilesDirVar := "RUNFILES_DIR"
  const TestSrcdirVar := "TEST_SRCDIR"
  const ManifestFileVar := "RUNFILES_MANIFEST_FILE"

  /** The outcome of one lookup; `NotFound` stands for the `FileNotFoundError` raised. */
  datatype Resolution = Found(path: string) | NotFound

  /**
   * The process and file-system state one lookup observes:
   * `env` is `os.environ`; `existing` the paths for which `Path.exists()` holds;
   * `join(root, key)` is `Path(root) / key`, left uninterpreted; `lines(file)` the
   * lines that iterating over the opened file yields, in file order.
   */
  datatype World = World(
    env: map<string, string>,
    existing: set<string>,
    join: (string, string) -> string,
    lines: string -> seq<string>)

  /** `os.environ.get(name)`. */
  function Getenv(env: map<string, string>, name: string): Option<string> {
    if name in env then Some(env[name]) else None
  }

  /** One directory source: the joined path, when the variable is non-empty and that path exists. */
  function DirSource(w: World, name: string, rlocationpath: string): Resolution {
    var root := Getenv(w.env, name);
    if Truthy(root) && w.join(root.value, rlocationpath) in w.existing
    then Found(w.join(root.value, rlocationpath))
    else NotFound
  }

  /** The manifest is read only when its variable is non-empty and names an existing file. */
  predicate ManifestActive(w: World) {
    var file := Getenv(w.env, ManifestFileVar);
    Truthy(file) && file.value in w.existing
  }

  /** The lines of the manifest file the lookup would read. */
  function ManifestLines(w: World): seq<string>
    requires ManifestActive(w)
  {
    w.lines(Getenv(w.env, ManifestFileVar).value)
  }

  /** The manifest source: the path on the first matching line, if the manifest is read at all. */
  function ManifestSource(w: World, rlocationpath: string): Resolution {
    if !ManifestActive(w) then NotFound
    else match FirstMatch(ManifestLines(w), rlocationpath)
      case Some(path) => Found(path)
      case None => NotFound
  }

  /** The first source, in precedence order, that yields a path. */
  function Resolve(w: World, rlocationpath: string): Resolution {
    var fromRunfilesDir := DirSource(w, RunfilesDirVar, rlocationpath);
    var fromTestSrcdir := DirSource(w, TestSrcdirVar, rlocationpath);
    if fromRunfilesDir.Found? then fromRunfilesDir
    else if fromTestSrcdir.Found? then fromTestSrcdir
    else ManifestSource(w, rlocationpath)
  }

  /** The lookup itself, step by step as the Python function performs it. */
  method MinimalRunfiles(w: World, rlocationpath: string) returns (r: Resolution)
    ensures r == Resolve(w, rlocationpath)
  {
    var runfilesDir := Getenv(w.env, RunfilesDirVar);
    if Truthy(runfilesDir) {
      var path := w.join(runfilesDir.value, rlocationpath);
      if path in w.existing {
        return Found(path);
      }
    }

    var testSrcdir := Getenv(w.env, TestSrcdirVar);
    if Truthy(testSrcdir) {
      var path := w.join(testSrcdir.value, rlocationpath);
      if path in w.existing {
        return Found(path);
      }
    }

    var manifestFile := Getenv(w.env, ManifestFileVar);
    if Truthy(manifestFile) {
      if manifestFile.value in w.existing {
        var found := ScanManifest(w.lines(manifestFile.value), rlocationpath);
        if found.Some? {
          return Found(found.value);
        }
      }
    }

    return NotFound;
  }

  /**
   * A hit under `RUNFILES_DIR` is the answer, whatever `TEST_SRCDIR` and the
   * manifest hold; failing that, a hit under `TEST_SRCDIR` beats the manifest.
   */
  lemma Precedence(w: World, rlocationpath: string)
    ensures DirSource(w, RunfilesDirVar, rlocationpath).Found?
            ==> Resolve(w, rlocationpath) == DirSource(w, RunfilesDirVar, rlocationpath)
    ensures DirSource(w, RunfilesDirVar, rlocationpath) == NotFound
            && DirSource(w, TestSrcdirVar, rlocationpath).Found?
            ==> Resolve(w, rlocationpath) == DirSource(w, TestSrcdirVar, rlocationpath)
  {
  }

  /** With a non-empty `RUNFILES_DIR` under which the joined path exists, that joined path is the result. */
  lemma RunfilesDirHit(w: World, rlocationpath: string)
    requires RunfilesDirVar in w.env && w.env[RunfilesDirVar] != ""
    requires w.join(w.env[RunfilesDirVar], rlocationpath) in w.existing
    ensures Resolve(w, rlocationpath) == Found(w.join(w.env[RunfilesDirVar], rlocationpath))
  {
  }

  /** A variable set to the empty string is skipped exactly as if it were unset. */
  lemma EmptyIsUnset(w: World, name: string, rlocationpath: string)
    requires name in w.env && w.env[name] == ""
    ensures Resolve(w.(env := w.env - {name}), rlocationpath) == Resolve(w, rlocationpath)
  {
  }

  /**
   * Only the three variables matter, and of each only its value when it is
   * truthy: two environments that agree on them, or in which a variable is
   * unset or empty on both sides, resolve every key alike.
   */
  lemma OnlyThreeVariables(w: World, env': map<string, string>, rlocationpath: string)
    requires forall name | name in {RunfilesDirVar, TestSrcdirVar, ManifestFileVar} ::
               Getenv(env', name) == Getenv(w.env, name)
               || (!Truthy(Getenv(env', name)) && !Truthy(Getenv(w.env, name)))
    ensures Resolve(w.(env := env'), rlocationpath) == Resolve(w, rlocationpath)
  {
  }

  /**
   * A directory variable that is set but under which the joined path does not
   * exist does not end the lookup: the result is that of the same lookup with
   * the variable removed.
   */
  lemma DirMissFallsThrough(w: World, name: string, rlocationpath: string)
    requires name == RunfilesDirVar || name == TestSrcdirVar
    requires name in w.env && w.join(w.env[name], rlocationpath) !in w.existing
    ensures Resolve(w.(env := w.env - {name}), rlocationpath) == Resolve(w, rlocationpath)
  {
  }

  /**
   * The manifest is consulted only when `RUNFILES_MANIFEST_FILE` is non-empty
   * and names an existing file: otherwise no file content changes the result.
   */
  lemma ManifestReadOnlyWhenActive(w: World, lines': string -> seq<string>, rlocationpath: string)
    requires !ManifestActive(w)
    ensures Resolve(w.(lines := lines'), rlocationpath) == Resolve(w, rlocationpath)
    ensures Resolve(w, rlocationpath).Found? ==> Resolve(w, rlocationpath).path in w.existing
  {
  }

  /**
   * The lookup fails exactly when no source yields a match: neither joined
   * path exists and the manifest is unread or has no matching line.
   */
  lemma NotFoundIff(w: World, rlocationpath: string)
    ensures Resolve(w, rlocationpath) == NotFound
        <==> DirSource(w, RunfilesDirVar, rlocationpath) == NotFound
             && DirSource(w, TestSrcdirVar, rlocationpath) == NotFound
             && (ManifestActive(w) ==>
                   forall i :: 0 <= i < |ManifestLines(w)| ==>
                     MatchLine(ManifestLines(w)[i], rlocationpath) == None)
  {
    if ManifestActive(w) {
      FirstMatchNone(ManifestLines(w), rlocationpath);
    }
  }

  /**
   * Every path returned comes from somewhere: either it is a joined path
   * under one of the two directories and exists, or the manifest was read
   * and it is what the first matching line supplies.
   */
  lemma FoundProvenance(w: World, rlocationpath: string, path: string)
    requires Resolve(w, rlocationpath) == Found(path)
    ensures (path in w.existing
             && exists name | name in {RunfilesDirVar, TestSrcdirVar} ::
                  name in w.env && w.env[name] != "" && path == w.join(w.env[name], rlocationpath))
         || (ManifestActive(w)
             && exists i :: FirstMatchingLine(ManifestLines(w), rlocationpath, i, path))
  {
    if DirSource(w, RunfilesDirVar, rlocationpath).Found? {
      assert RunfilesDirVar in {RunfilesDirVar, TestSrcdirVar};
    } else if DirSource(w, TestSrcdirVar, rlocationpath).Found? {
      assert TestSrcdirVar in {RunfilesDirVar, TestSrcdirVar};
    } else {
      assert ManifestActive(w) && FirstMatch(ManifestLines(w), rlocationpath) == Some(path);
      var i := FirstHitWitness(ManifestLines(w), Matcher(rlocationpath));
      assert FirstMatchingLine(ManifestLines(w), rlocationpath, i, path);
    }
  }

  /**
   * Once the two directories miss and the manifest is read, the answer is the
   * first matching line's path: a later line for the same key is never used.
   */
  lemma ManifestFirstLineWins(w: World, rlocationpath: string, i: int, path: string)
    requires DirSource(w, RunfilesDirVar, rlocationpath) == NotFound
    requires DirSource(w, TestSrcdirVar, rlocationpath) == NotFound
    requires ManifestActive(w)
    requires FirstMatchingLine(ManifestLines(w), rlocationpath, i, path)
    ensures Resolve(w, rlocationpath) == Found(path)
  {
    FirstHitAt(ManifestLines(w), Matcher(rlocationpath), i, path);
  }

  /**
   * With only `RUNFILES_MANIFEST_FILE` set, to an existing manifest whose
   * first line is written as `<rlocationpath> <path>` plus its newline (the
   * shape the tests generate), the lookup returns exactly that path, spaces
   * inside it included.
   */
  lemma ManifestRoundTrip(w: World, manifest: string, rlocationpath: string, path: string, rest: seq<string>)
    requires w.env == map[ManifestFileVar := manifest]
    requires manifest != "" && manifest in w.existing
    requires rlocationpath != [] && ' ' !in rlocationpath
    requires !IsSpace(rlocationpath[0]) && rlocationpath[0] != '#'
    requires path != [] && !IsSpace(path[|path| - 1])
    requires w.lines(manifest) == [rlocationpath + " " + path + "\n"] + rest
    ensures Resolve(w, rlocationpath) == Found(path)
  {
    WrittenFirstLine(rlocationpath, path, rest);
    assert Getenv(w.env, ManifestFileVar) == Some(manifest);
    assert ManifestSource(w, rlocationpath) == Found(path);
    assert Getenv(w.env, RunfilesDirVar) == None;
    assert Getenv(w.env, TestSrcdirVar) == None;
  }

  /** With none of the three variables set, every lookup fails. */
  lemma EmptyEnvironment(w: World, rlocationpath: string)
    requires w.env == map[]
    ensures Resolve(w, rlocationpath) == NotFound
  {
  }
}
