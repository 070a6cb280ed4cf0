/**
 * `binary_args`: the argument vector that starts a binary under test. Python
 * scripts run under the current interpreter with isolation flags, shell
 * scripts under bash, and anything else directly. The binary's path is
 * always the last element.
 *
 * The binary's path is given as the text `str(binary)`; `sys.executable` and
 * the two `shutil.which` lookups are inputs.
 */
module BinaryArgs {
  import opened Wrappers
  import opened PyStr

  /**
   * `Path.name` of a POSIX path in the normal form `str(Path)` produces: the
   * text after the last `/` (all of it when there is none).
   */
  function BaseName(p: string): (name: string)
    ensures '/' !in name
    ensures EndsWith(p, name)
    ensures |name| < |p| ==> p[|p| - |name| - 1] == '/'
  {
    if p == [] || p[|p| - 1] == '/' then []
    else
      var name := BaseName(p[..|p| - 1]) + [p[|p| - 1]];
      assert p[..|p| - 1] + [p[|p| - 1]] == p;
      name
  }

  /**
   * Testing the file name for a suffix without a `/` gives the same answer as
   * testing the whole path: the suffix test cannot reach past the name.
   */
  lemma NameSuffixIsPathSuffix(p: string, suffix: string)
    requires '/' !in suffix
    ensures EndsWith(BaseName(p), suffix) <==> EndsWith(p, suffix)
  {
  }

  /**
   * The interpreter for a shell script: `which("bash")`, else
   * `which("bash.exe")`, else `/bin/bash`. A lookup counts only when it
   * returns a non-empty path, so the choice is never empty and is the first
   * candidate that is.
   */
  function ChooseBash(whichBash: Option<string>, whichBashExe: Option<string>): (bash: string)
    ensures bash != ""
    ensures Truthy(whichBash) ==> bash == whichBash.value
    ensures !Truthy(whichBash) ==> bash == (if Truthy(whichBashExe) then whichBashExe.value else "/bin/bash")
  {
    if Truthy(whichBash) then whichBash.value
    else if Truthy(whichBashExe) then whichBashExe.value
    else "/bin/bash"
  }

  /** The argument vector for `binary`, chosen by the suffix of its file name. */
  function BinaryArgs(binary: string, python: string, whichBash: Option<string>, whichBashExe: Option<string>)
    : (argv: seq<string>)
    ensures |argv| >= 1 && argv[|argv| - 1] == binary
    ensures EndsWith(binary, ".py") <==> argv == [python, "-B", "-s", "-P", binary]
    ensures EndsWith(binary, ".sh") <==> |argv| == 2
    ensures EndsWith(binary, ".sh") ==> argv[0] == ChooseBash(whichBash, whichBashExe) && argv[0] != ""
    ensures !EndsWith(binary, ".py") && !EndsWith(binary, ".sh") <==> argv == [binary]
  {
    var name := BaseName(binary);
    NameSuffixIsPathSuffix(binary, ".py");
    NameSuffixIsPathSuffix(binary, ".sh");
    if EndsWith(name, ".py") then [python, "-B", "-s", "-P", binary]
    else if EndsWith(name, ".sh") then [ChooseBash(whichBash, whichBashExe), binary]
    else [binary]
  }

  /** A path cannot end in both `.py` and `.sh`, so the order of the two tests never matters. */
  lemma SuffixesExclusive(binary: string)
    ensures !(EndsWith(binary, ".py") && EndsWith(binary, ".sh"))
  {
  }
}
