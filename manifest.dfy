/**
 * The manifest scan of `minimal_runfiles`: every line of the manifest file is
 * stripped, blank lines and `#` comments are skipped, the line is split at its
 * first single space, and the first line whose key equals the requested
 * rlocationpath exactly supplies the path.
 */
module Manifest {
  import opened Wrappers
  import opened PyStr

  /** True of a line the scan skips before it even splits it. */
  predicate Skipped(line: string) {
    var stripped := Strip(line);
    stripped == [] || StartsWith(stripped, "#")
  }

  /** What one iteration of the scan makes of `line` when looking for `rlocationpath`. */
  function MatchLine(line: string, rlocationpath: string): Option<string> {
    if Skipped(line) then None
    else
      var parts := SplitOnce(Strip(line), ' ');
      if |parts| == 2 && parts[0] == rlocationpath then Some(parts[1]) else None
  }

  /** The per-line test of the scan for one rlocationpath. */
  function Matcher(rlocationpath: string): string -> Option<string> {
    line => MatchLine(line, rlocationpath)
  }

  /**
   * What a scan that stops at the first line for which `matches` gives a value
   * returns. The lemmas about the order of the scan are stated for any per-line
   * test, and hold in particular for `Matcher(rlocationpath)`.
   */
  function FirstHit(lines: seq<string>, matches: string -> Option<string>): Option<string> {
    if lines == [] then None
    else if matches(lines[0]).Some? then matches(lines[0])
    else FirstHit(lines[1..], matches)
  }

  /** The path supplied by the first matching line of `lines`, if any. */
  function FirstMatch(lines: seq<string>, rlocationpath: string): Option<string> {
    FirstHit(lines, Matcher(rlocationpath))
  }

  /** Line `i` is the first line of `lines` for which `matches` gives a value, and that value is `v`. */
  ghost predicate FirstHitLine(lines: seq<string>, matches: string -> Option<string>, i: int, v: string) {
    0 <= i < |lines|
    && matches(lines[i]) == Some(v)
    && forall j :: 0 <= j < i ==> matches(lines[j]) == None
  }

  /** Line `i` is the first line of `lines` that matches `rlocationpath`, and it supplies `path`. */
  ghost predicate FirstMatchingLine(lines: seq<string>, rlocationpath: string, i: int, path: string) {
    FirstHitLine(lines, Matcher(rlocationpath), i, path)
  }

  /**
   * A line matches exactly when its stripped form is the key, one space and the
   * path, the key holds no space and does not start with `#`. The path is
   * everything after that first space: further spaces, even one right after
   * the separator, belong to it.
   */
  lemma MatchLineIff(line: string, rlocationpath: string, path: string)
    ensures MatchLine(line, rlocationpath) == Some(path)
        <==> Strip(line) == rlocationpath + " " + path
             && ' ' !in rlocationpath
             && !StartsWith(rlocationpath, "#")
  {
    var stripped := Strip(line);
    if stripped == rlocationpath + " " + path && ' ' !in rlocationpath && !StartsWith(rlocationpath, "#") {
      assert stripped[|rlocationpath|] == ' ';
      assert stripped[0] == (rlocationpath + " " + path)[0];
      assert !StartsWith(stripped, "#") by {
        assert stripped[..1] == rlocationpath[..1];
      }
      var parts := SplitOnce(stripped, ' ');
      assert |parts| == 2;
      SplitUnique(parts[0], parts[1], rlocationpath, path, ' ');
    }
    if MatchLine(line, rlocationpath) == Some(path) {
      var parts := SplitOnce(stripped, ' ');
      assert parts[0] == rlocationpath;
    }
  }

  /**
   * A manifest line written as the key, one space, the path and any trailing
   * whitespace such as its newline is read back as exactly that path, spaces
   * inside the path included, provided the key is a possible key at all (no
   * space, no leading whitespace or `#`) and the path does not end in
   * whitespace; the same line supplies nothing for any other key.
   */
  lemma WrittenEntryRoundTrip(rlocationpath: string, path: string, terminator: string)
    requires rlocationpath != [] && ' ' !in rlocationpath
    requires !IsSpace(rlocationpath[0]) && rlocationpath[0] != '#'
    requires path != [] && !IsSpace(path[|path| - 1])
    requires forall i :: 0 <= i < |terminator| ==> IsSpace(terminator[i])
    ensures MatchLine(rlocationpath + " " + path + terminator, rlocationpath) == Some(path)
    ensures forall other :: other != rlocationpath
              ==> MatchLine(rlocationpath + " " + path + terminator, other) == None
  {
    var line := rlocationpath + " " + path + terminator;
    var entry := rlocationpath + " " + path;
    assert entry[0] == rlocationpath[0] && entry[|entry| - 1] == path[|path| - 1];
    StripPadded(entry, terminator);
    assert !StartsWith(rlocationpath, "#");
    MatchLineIff(line, rlocationpath, path);
    // The line's only split is at the space after the key, so its key is `rlocationpath`.
    assert SplitOnce(Strip(line), ' ')[0] == rlocationpath;
  }

  /** A manifest whose first line is written as `<rlocationpath> <path>` and a newline yields that path. */
  lemma WrittenFirstLine(rlocationpath: string, path: string, rest: seq<string>)
    requires rlocationpath != [] && ' ' !in rlocationpath
    requires !IsSpace(rlocationpath[0]) && rlocationpath[0] != '#'
    requires path != [] && !IsSpace(path[|path| - 1])
    ensures FirstMatch([rlocationpath + " " + path + "\n"] + rest, rlocationpath) == Some(path)
  {
    var line := rlocationpath + " " + path + "\n";
    assert IsSpace("\n"[0]);
    WrittenEntryRoundTrip(rlocationpath, path, "\n");
    FirstHitAt([line] + rest, Matcher(rlocationpath), 0, path);
  }

  /**
   * Blank lines, comments and lines with no space at all (a tab-only
   * separator, a key alone) never supply a path, whatever is looked up.
   */
  lemma NonEntriesNeverMatch(line: string, rlocationpath: string)
    requires Skipped(line) || ' ' !in Strip(line)
    ensures MatchLine(line, rlocationpath) == None
  {
  }

  /** A matched path is never empty and never ends in whitespace. */
  lemma MatchedPathShape(line: string, rlocationpath: string)
    requires MatchLine(line, rlocationpath).Some?
    ensures var path := MatchLine(line, rlocationpath).value;
            path != [] && !IsSpace(path[|path| - 1])
  {
  }

  /**
   * The `for line in f` loop: strip each line, skip blanks and comments, split
   * at the first space and stop at the first line whose key is `rlocationpath`.
   */
  method ScanManifest(lines: seq<string>, rlocationpath: string) returns (found: Option<string>)
    ensures found == FirstMatch(lines, rlocationpath)
  {
    var i := 0;
    while i < |lines|
      invariant 0 <= i <= |lines|
      invariant FirstMatch(lines[i..], rlocationpath) == FirstMatch(lines, rlocationpath)
    {
      FirstMatchStep(lines, i, rlocationpath);
      var line := Strip(lines[i]);
      if line == [] || StartsWith(line, "#") {
        i := i + 1;
        continue;
      }
      var parts := SplitOnce(line, ' ');
      if |parts| == 2 && parts[0] == rlocationpath {
        return Some(parts[1]);
      }
      i := i + 1;
    }
    assert lines[i..] == [];
    return None;
  }

  /** One step of the scan: line `i` either matches or hands over to the lines after it. */
  lemma FirstMatchStep(lines: seq<string>, i: int, rlocationpath: string)
    requires 0 <= i < |lines|
    ensures FirstMatch(lines[i..], rlocationpath)
         == if MatchLine(lines[i], rlocationpath).Some? then MatchLine(lines[i], rlocationpath)
            else FirstMatch(lines[i + 1..], rlocationpath)
  {
    assert lines[i..][0] == lines[i] && lines[i..][1..] == lines[i + 1..];
  }

  /** If line `i` is the first to match, the scan returns what it supplies. */
  lemma {:induction false} FirstHitAt(lines: seq<string>, matches: string -> Option<string>, i: int, v: string)
    requires FirstHitLine(lines, matches, i, v)
    ensures FirstHit(lines, matches) == Some(v)
  {
    if i > 0 {
      assert matches(lines[0]) == None;
      FirstHitAt(lines[1..], matches, i - 1, v);
    }
  }

  /** Whatever the scan returns comes from a line that is the first to match. */
  lemma {:induction false} FirstHitWitness(lines: seq<string>, matches: string -> Option<string>) returns (i: int)
    requires FirstHit(lines, matches).Some?
    ensures FirstHitLine(lines, matches, i, FirstHit(lines, matches).value)
  {
    if matches(lines[0]).Some? {
      i := 0;
    } else {
      var rest := lines[1..];
      var j := FirstHitWitness(rest, matches);
      i := j + 1;
      assert lines[i] == rest[j];
      forall m | 1 <= m < i ensures matches(lines[m]) == None {
        assert lines[m] == rest[m - 1];
      }
    }
  }

  /** The scan returns `v` exactly when some line gives it and no earlier line matches. */
  lemma FirstHitFound(lines: seq<string>, matches: string -> Option<string>, v: string)
    ensures FirstHit(lines, matches) == Some(v) <==> exists i :: FirstHitLine(lines, matches, i, v)
  {
    if FirstHit(lines, matches) == Some(v) {
      var i := FirstHitWitness(lines, matches);
    }
    if exists i :: FirstHitLine(lines, matches, i, v) {
      var i :| FirstHitLine(lines, matches, i, v);
      FirstHitAt(lines, matches, i, v);
    }
  }

  /** The scan returns nothing exactly when no line matches. */
  lemma {:induction false} FirstHitNone(lines: seq<string>, matches: string -> Option<string>)
    ensures FirstHit(lines, matches) == None <==> forall i :: 0 <= i < |lines| ==> matches(lines[i]) == None
  {
    if lines != [] {
      FirstHitNone(lines[1..], matches);
      assert forall i :: 1 <= i < |lines| ==> lines[i] == lines[1..][i - 1];
    }
  }

  /** In particular, a manifest yields nothing for `rlocationpath` exactly when none of its lines matches it. */
  lemma FirstMatchNone(lines: seq<string>, rlocationpath: string)
    ensures FirstMatch(lines, rlocationpath) == None
        <==> forall i :: 0 <= i < |lines| ==> MatchLine(lines[i], rlocationpath) == None
  {
    FirstHitNone(lines, Matcher(rlocationpath));
  }

  /**
   * Reading stops at the first match: whatever follows a prefix that already
   * matches is never consulted, and a prefix without a match hands the search
   * on to the rest unchanged.
   */
  lemma {:induction false} FirstHitAppend(front: seq<string>, back: seq<string>, matches: string -> Option<string>)
    ensures FirstHit(front + back, matches)
         == if FirstHit(front, matches).Some? then FirstHit(front, matches) else FirstHit(back, matches)
  {
    if front != [] {
      assert (front + back)[1..] == front[1..] + back;
      FirstHitAppend(front[1..], back, matches);
    } else {
      assert front + back == back;
    }
  }

  /**
   * In a manifest, a later line for a key that an earlier line already
   * matched is never used, and a line that does not match (a blank line or a
   * comment, say) can be added anywhere without changing the result.
   */
  lemma ManifestLineOrder(front: seq<string>, line: string, back: seq<string>, rlocationpath: string)
    ensures FirstMatch(front, rlocationpath).Some?
            ==> FirstMatch(front + [line] + back, rlocationpath) == FirstMatch(front, rlocationpath)
    ensures MatchLine(line, rlocationpath) == None
            ==> FirstMatch(front + [line] + back, rlocationpath) == FirstMatch(front + back, rlocationpath)
  {
    var m := Matcher(rlocationpath);
    FirstHitAppend(front, [line] + back, m);
    FirstHitAppend(front, back, m);
    assert front + [line] + back == front + ([line] + back);
    assert ([line] + back)[1..] == back;
  }
}
