# runfiles_api — a verified model of the minimal runfiles resolver

The runfiles API test suite drives binaries that resolve an *rlocationpath*
(a workspace-relative key such as `runfiles_api/test_data.txt`) to a file on
disk. The suite itself contains one piece of resolution logic,
`minimal_runfiles`, which locates the binary under test, and one piece of
pure logic, `binary_args`, which builds the argument vector that launches it.
This project models both in Dafny and proves what they promise.

`minimal_runfiles` tries three sources in a fixed order:

1. the `RUNFILES_DIR` tree: join the key onto the directory, return the joined
   path if it exists;
2. the `TEST_SRCDIR` tree, in the same way;
3. the manifest named by `RUNFILES_MANIFEST_FILE`, if that file exists: each
   line is stripped, blank lines and `#` comments are skipped, the line is split
   at its first single space, and the first line whose key equals the requested
   key exactly gives the path.

A variable that is unset or set to the empty string is skipped. When nothing
matches, the function raises `FileNotFoundError`; the model returns
`NotFound`.

`binary_args` picks the interpreter from the file name: `.py` files run as
`[python, "-B", "-s", "-P", binary]`, `.sh` files as `[bash, binary]`, where bash
is `which("bash")`, else `which("bash.exe")`, else `/bin/bash`, and anything else
as `[binary]`.

Files:

- `wrappers.dfy` — `Option` and Python truthiness of an optional string.
- `pystr.dfy` — the Python `str` operations the code uses (`isspace`, `strip`,
  `startswith`, `endswith`, `split(" ", 1)`), each characterised by its contract.
- `manifest.dfy` — one manifest line (`MatchLine`), the first-match search
  (`FirstMatch`, an instance of the search `FirstHit` that stops at the first
  line a per-line test accepts), the scan loop as a method (`ScanManifest`),
  and their lemmas.
- `runfiles.dfy` — the inputs (`World`), the three sources, the precedence
  order (`Resolve`), the lookup as a method (`MinimalRunfiles`), and the
  precedence, fallthrough and failure lemmas.
- `binary_args.dfy` — `Path.name`, the bash fallback chain and the argument vector.

Inputs that the Python code reads from the process are parameters here:
`os.environ` is a `map<string, string>`; `Path.exists()` is membership in a set
of existing paths; `Path(root) / key` is a function `join` that the model
leaves uninterpreted; the opened manifest file is a function from a file path
to the lines that iterating over it yields; `sys.executable` and the two
`shutil.which` results are arguments of `BinaryArgs`.

Where the general runfiles protocol and this function differ, the model
follows the function: the two directory variables come BEFORE the manifest,
the manifest is searched first-match (a repeated key keeps its first entry),
and a line is split at its first single space, not at a run of whitespace, so
a tab-only separator never matches and a second space stays in the path. The
docstring of `minimal_runfiles` (runfiles_api_test.py:36) says it returns None
when nothing is found; the code raises instead (line 62), and the model
follows the code. Because every line is stripped before it is split, a
manifest path that ends in whitespace comes back without that whitespace.

## Model

| member | source | states |
|---|---|---|
| `Runfiles.Resolve` | runfiles_api_test.py:38-62 | The lookup as a function: the first source, in the order `RUNFILES_DIR`, `TEST_SRCDIR`, manifest, that yields a path, else `NotFound`. Characterised by `NotFoundIff`, `FoundProvenance` and `Precedence`. |
| `Runfiles.DirSource` | runfiles_api_test.py:39-48 | One directory source: the joined path when the variable is non-empty and that path exists, else nothing. Characterised by `RunfilesDirHit` and `DirMissFallsThrough`. |
| `Runfiles.ManifestActive` | runfiles_api_test.py:51-52 | The manifest is read only when `RUNFILES_MANIFEST_FILE` is non-empty and names an existing file. Characterised by `ManifestReadOnlyWhenActive`. |
| `Runfiles.ManifestLines` | runfiles_api_test.py:53-54 | The lines that `open(manifest_file)` and `for line in f` yield for an active manifest, in file order. Characterised by `NotFoundIff` and `ManifestFirstLineWins`. |
| `Runfiles.ManifestSource` | runfiles_api_test.py:51-60 | The manifest source: the path on the first matching line of an active manifest, else nothing. Characterised by `ManifestFirstLineWins` and `ManifestRoundTrip`. |
| `Runfiles.Getenv` | runfiles_api_test.py:39 | `os.environ.get(name)`: the value when the variable is set, else none. Definitional; the lemmas on the environment (`EmptyIsUnset`, `OnlyThreeVariables`) are stated through it. |
| `Manifest.MatchLine` | runfiles_api_test.py:55-60 | One iteration of the scan for one line: the path it supplies for the key, or nothing. Characterised by `MatchLineIff`, `NonEntriesNeverMatch` and `MatchedPathShape`. |
| `Manifest.Skipped` | runfiles_api_test.py:55-57 | The skip test: a line that is blank or a `#` comment once stripped is passed over. Characterised by `NonEntriesNeverMatch`. |
| `Manifest.FirstHit` | runfiles_api_test.py:54-60 | A scan that stops at the first line a per-line test accepts. Characterised by `FirstHitFound`, `FirstHitNone` and `FirstHitAppend`. |
| `Manifest.FirstMatch` | runfiles_api_test.py:54-60 | The path supplied by the first matching manifest line. Characterised by `FirstMatchNone` and `ManifestLineOrder`, and computed by `ScanManifest`. |
| `PyStr.IsSpace` | runfiles_api_test.py:55 | `str.isspace()` for one character: the characters `strip()` removes. Used by the contracts of `TrimStart`, `TrimEnd` and `Strip`. |
| `PyStr.StartsWith` | runfiles_api_test.py:56 | `str.startswith(prefix)`: the string begins with `prefix`. Used by `MatchLineIff`. |
| `PyStr.EndsWith` | runfiles_api_test.py:127-130 | `str.endswith(suffix)`: the string ends with `suffix`. Used by the contracts of `BaseName` and `BinaryArgs`. |
| `Wrappers.Truthy` | runfiles_api_test.py:39-51 | Python truthiness of an optional string (the walrus tests at lines 39, 45 and 51, and `not bash` at lines 132 and 134): set and non-empty. Used by `EmptyIsUnset`, `OnlyThreeVariables` and `ChooseBash`. |
| `Runfiles.MinimalRunfiles` | runfiles_api_test.py:26-62 | The lookup, performed step by step with early returns, gives exactly `Resolve`: the first of the three sources, in precedence order, that yields a path. |
| `Manifest.ScanManifest` | runfiles_api_test.py:53-60 | The `for line in f` loop returns the path on the first matching line, or nothing; its invariant is that the unread suffix decides the same result as the whole file. |
| `Runfiles.Precedence` | runfiles_api_test.py:38-48 | A hit under `RUNFILES_DIR` is the result whatever else is set; otherwise a hit under `TEST_SRCDIR` is the result, whatever the manifest says. |
| `Runfiles.RunfilesDirHit` | runfiles_api_test.py:39-42 | A non-empty `RUNFILES_DIR` under which the joined path exists gives exactly that joined path. |
| `Runfiles.OnlyThreeVariables` | runfiles_api_test.py:39-51 | Two environments in which each of the three variables either has the same value or is unset or empty on both sides resolve every key alike. |
| `Runfiles.EmptyIsUnset` | runfiles_api_test.py:39-51 | Removing a variable whose value is the empty string changes no result: the truthiness test skips it. |
| `Runfiles.DirMissFallsThrough` | runfiles_api_test.py:39-48 | A directory variable under which the joined path does not exist gives the same result as the lookup without that variable: a miss falls through, it does not fail. |
| `Runfiles.ManifestReadOnlyWhenActive` | runfiles_api_test.py:51-53 | When `RUNFILES_MANIFEST_FILE` is unset, empty or names a missing file, no file content changes the result, and any result is an existing path. |
| `Runfiles.NotFoundIff` | runfiles_api_test.py:39-62 | The lookup fails if and only if neither joined path exists and the manifest is unread or has no matching line. |
| `Runfiles.FoundProvenance` | runfiles_api_test.py:39-60 | A returned path is either an existing join of a non-empty directory variable with the key, or the path on the first matching line of a manifest that was read. |
| `Runfiles.ManifestFirstLineWins` | runfiles_api_test.py:51-60 | When both directories miss and the manifest is read, the first matching line decides the result. |
| `Runfiles.ManifestRoundTrip` | runfiles_api_test.py:51-60 | With only `RUNFILES_MANIFEST_FILE` set, naming an existing file, a manifest whose first line is `<key> <path>` and a newline resolves the key to exactly that path, inner spaces included, for a key that is non-empty, holds no space and does not start with whitespace or `#`, and a path that is non-empty and does not end in whitespace. |
| `Runfiles.EmptyEnvironment` | runfiles_api_test.py:39-62 | With an empty environment every lookup fails. |
| `Manifest.MatchLineIff` | runfiles_api_test.py:55-60 | A line supplies `path` for `key` if and only if its stripped form is `key + " " + path`, the key has no space and does not start with `#`. |
| `Manifest.NonEntriesNeverMatch` | runfiles_api_test.py:55-59 | Blank lines, comments and lines with no space (a tab-only separator included) never supply a path. |
| `Manifest.MatchedPathShape` | runfiles_api_test.py:55-60 | A supplied path is never empty and never ends in whitespace. |
| `Manifest.WrittenEntryRoundTrip` | runfiles_api_test.py:55-60 | A line written as key, one space, path and trailing whitespace is read back as exactly that path, for a key that is non-empty, holds no space and does not start with whitespace or `#`, and a path that is non-empty and does not end in whitespace; the same line supplies nothing for any other key. |
| `Manifest.FirstMatchStep` | runfiles_api_test.py:54-60 | One loop step: the line at the read position either matches and decides the result, or the result is that of the lines after it. |
| `Manifest.WrittenFirstLine` | runfiles_api_test.py:54-60 | A manifest whose first line is written as `<key> <path>` and a newline yields that path for that key, whatever follows, for a key that is non-empty, holds no space and does not start with whitespace or `#`, and a path that is non-empty and does not end in whitespace. |
| `Manifest.FirstHitAt` | runfiles_api_test.py:54-60 | If line `i` matches and no earlier line does, the search returns line `i`'s value. |
| `Manifest.FirstHitWitness` | runfiles_api_test.py:54-60 | Whatever the search returns comes from a line that matches with no matching line before it. |
| `Manifest.FirstHitFound` | runfiles_api_test.py:54-60 | The search returns a value if and only if some line gives it and no earlier line matches. |
| `Manifest.FirstHitNone` | runfiles_api_test.py:54-62 | The search returns nothing if and only if no line matches. |
| `Manifest.FirstMatchNone` | runfiles_api_test.py:54-62 | A manifest yields nothing for a key if and only if none of its lines matches that key. |
| `Manifest.FirstHitAppend` | runfiles_api_test.py:54-60 | Lines after a matching prefix are never consulted; after a prefix without a match the search continues on the rest unchanged. |
| `Manifest.ManifestLineOrder` | runfiles_api_test.py:54-60 | A later duplicate of an already matched key is never used, and inserting a non-matching line (a blank line or a comment, say) anywhere does not change the result. |
| `PyStr.TrimStart` | runfiles_api_test.py:55 | Left strip: the longest suffix not starting with whitespace; only whitespace is removed. |
| `PyStr.TrimEnd` | runfiles_api_test.py:55 | Right strip: the longest prefix not ending with whitespace; only whitespace is removed. |
| `PyStr.Strip` | runfiles_api_test.py:55 | `strip()` returns the contiguous piece of the line that starts where the left strip starts, with only whitespace cut away on either side; it is empty exactly when the line is all whitespace, and otherwise has non-space first and last characters. |
| `PyStr.StripPadded` | runfiles_api_test.py:55 | Stripping a line that is a non-space-bounded text plus trailing whitespace gives back that text. |
| `PyStr.TrimEndPadded` | runfiles_api_test.py:55 | Right-stripping a non-space-ended text plus whitespace gives back that text. |
| `PyStr.IndexOf` | runfiles_api_test.py:58 | The position of the first occurrence of the separator, or the length when it is absent. |
| `PyStr.SplitOnce` | runfiles_api_test.py:58 | `split(" ", 1)` gives the whole line when it has no space, else the text before the first space (space-free) and everything after it, which rejoin to the line. |
| `PyStr.SplitUnique` | runfiles_api_test.py:58-59 | A string splits at its first separator in only one way, so the key comparison is well defined. |
| `BinaryArgs.BaseName` | runfiles_api_test.py:127 | `Path.name` is the longest `/`-free suffix of the path. |
| `BinaryArgs.NameSuffixIsPathSuffix` | runfiles_api_test.py:127-130 | For a suffix without `/`, testing the file name is the same as testing the whole path. |
| `BinaryArgs.ChooseBash` | runfiles_api_test.py:131-135 | The bash interpreter is never empty: `which("bash")` if non-empty, else `which("bash.exe")` if non-empty, else `/bin/bash`. |
| `BinaryArgs.BinaryArgs` | runfiles_api_test.py:124-138 | The binary path is always the last argument; a `.py` path gets exactly the interpreter and `-B -s -P`, a `.sh` path exactly one non-empty bash in front, any other path nothing in front. |
| `BinaryArgs.SuffixesExclusive` | runfiles_api_test.py:127-130 | No path ends in both `.py` and `.sh`, so the order of the two tests does not matter. |

## Left out

- The pytest fixtures and test functions (runfiles_api_test.py:65-121 and 141-295): they create temporary directories, copy files and run subprocesses; that is file-system and process I/O.
- Reading the manifest: `open`, text decoding and line splitting are not modelled; the model starts from the lines the file iteration yields. Errors that `open` or decoding can raise (a directory, a permission error, bad encoding) are not modelled.
- `Path` semantics: `Path(root) / key` is an uninterpreted `join` (no `.`/`..` handling, no absolute-key override), and the path returned from the manifest is the text after the first space, without the normalisation `Path(...)` applies to it.
- Errors raised by `Path.exists()` itself are not modelled: existence is a yes-or-no membership test. On Python 3.11 and 3.12, `exists()` at runfiles_api_test.py:41, 47 and 52 propagates errors other than a missing file, such as `PermissionError` for a directory without search permission, so `minimal_runfiles` would raise instead of moving on to the next source as the model does.
- The exception message of `FileNotFoundError`: `NotFound` carries no text.
- The adjacent `<binary>.runfiles` directory and its `MANIFEST` file: no shown implementation performs that discovery; the binaries rely on runfiles libraries that are not part of this model.
- test/cc/runfiles_user.cc, test/java/RunfilesUser.java, test/python/runfiles_user_entrypoint.py, test/go/runfiles_user.go and test/rust/runfiles_user.rs: each checks its argument count, calls an external runfiles library and prints a file; the libraries are not part of this model.
- tools/src_merger/src_merger.py: file reading and writing around one string replacement.
- `BinaryArgs.BaseName`: follows POSIX `/` separators only; for the path `.`, `Path.name` is empty while the model gives `.`, which changes no `.py`/`.sh` test.
- `PyStr.IsSpace`: lists the characters Python's `str.isspace` accepts as a fixed table rather than deriving them from the Unicode database.
