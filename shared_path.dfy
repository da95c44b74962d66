/**
 * The paths that `site:shared:pull` works with: a user-supplied file name made relative to
 * the site's shared/ directory, the remote path built from it, and the reading of the
 * remote existence test's exit code.
 */
module SharedPath {
  import opened Wrappers
  import opened PhpStrings

  /** No two consecutive slashes. */
  predicate NoDoubleSlash(s: string) {
    forall j :: 0 <= j < |s| - 1 ==> !(s[j] == '/' && s[j + 1] == '/')
  }

  /** `s` with every slash removed: what collapsing slash runs must leave untouched. */
  function WithoutSlashes(s: string): (r: string)
    ensures '/' !in r
  {
    if |s| == 0 then "" else (if s[0] == '/' then "" else [s[0]]) + WithoutSlashes(s[1..])
  }

  /** preg_replace('#/+#', '/', $s): every run of slashes becomes a single slash. */
  function CollapseSlashes(s: string): (r: string)
    ensures |r| <= |s|
    ensures |s| > 0 ==> |r| > 0 && r[0] == s[0]
    ensures NoDoubleSlash(r)
    decreases |s|
  {
    if |s| < 2 then s
    else if s[0] == '/' && s[1] == '/' then CollapseSlashes(s[1..])
    else [s[0]] + CollapseSlashes(s[1..])
  }

  /** Collapsing removes slashes only: every other character survives, in order. */
  lemma {:induction false} CollapseKeepsOthers(s: string)
    ensures WithoutSlashes(CollapseSlashes(s)) == WithoutSlashes(s)
    decreases |s|
  {
    if |s| >= 2 {
      CollapseKeepsOthers(s[1..]);
      if !(s[0] == '/' && s[1] == '/') {
        var r := [s[0]] + CollapseSlashes(s[1..]);
        assert r[1..] == CollapseSlashes(s[1..]);
      }
    }
  }

  /** A path without double slashes is left as it is. */
  lemma {:induction false} CollapseFixesSingleSlashes(s: string)
    requires NoDoubleSlash(s)
    ensures CollapseSlashes(s) == s
    decreases |s|
  {
    if |s| >= 2 {
      assert NoDoubleSlash(s[1..]) by {
        forall j | 0 <= j < |s[1..]| - 1 ensures !(s[1..][j] == '/' && s[1..][j + 1] == '/') {
          assert s[1..][j] == s[j + 1] && s[1..][j + 1] == s[j + 2];
        }
      }
      CollapseFixesSingleSlashes(s[1..]);
      assert !(s[0] == '/' && s[1] == '/');
      assert s == [s[0]] + s[1..];
    }
  }

  /** Two adjacent dots survive the collapse of slash runs. */
  lemma {:induction false} CollapseKeepsDotDot(s: string, i: nat) returns (j: nat)
    requires OccursAt(s, "..", i)
    ensures OccursAt(CollapseSlashes(s), "..", j)
    decreases |s|
  {
    assert s[i] == '.' && s[i + 1] == '.' by { assert s[i..i + 2] == ".."; }
    if i == 0 {
      var t := CollapseSlashes(s[1..]);
      assert t[0] == '.';
      j := 0;
      var r := [s[0]] + t;
      assert r[0..2] == "..";
    } else {
      assert OccursAt(s[1..], "..", i - 1) by { assert s[1..][i - 1..i + 1] == s[i..i + 2]; }
      var k := CollapseKeepsDotDot(s[1..], i - 1);
      var t := CollapseSlashes(s[1..]);
      if s[0] == '/' && s[1] == '/' {
        j := k;
      } else {
        j := k + 1;
        var r := [s[0]] + t;
        assert r[j..j + 2] == t[k..k + 2];
      }
    }
  }

  lemma {:induction false} TrimLeftKeeps(s: string, i: nat)
    requires i < |s| && !IsTrimChar(s[i])
    ensures |s| - |TrimLeft(s)| <= i
    decreases |s|
  {
    if IsTrimChar(s[0]) {
      TrimLeftKeeps(s[1..], i - 1);
    }
  }

  lemma {:induction false} TrimRightKeeps(s: string, i: nat)
    requires i < |s| && !IsTrimChar(s[i])
    ensures i < |TrimRight(s)|
    decreases |s|
  {
    if IsTrimChar(s[|s| - 1]) {
      TrimRightKeeps(s[..|s| - 1], i);
    }
  }

  /** Two adjacent dots survive trimming, since dots are not trimmed. */
  lemma TrimKeepsDotDot(s: string, i: nat) returns (j: nat)
    requires OccursAt(s, "..", i)
    ensures OccursAt(Trim(s), "..", j)
  {
    DotsAt(s, i);
    var l := TrimLeft(s);
    TrimLeftKeeps(s, i);
    var off := |s| - |l|;
    j := i - off;
    assert l[j] == s[i] && l[j + 1] == s[i + 1];
    TrimRightKeeps(l, j + 1);
    var r := TrimRight(l);
    assert r[j] == l[j] && r[j + 1] == l[j + 1];
    DotsOccur(r, j);
  }

  lemma DotsAt(s: string, i: nat)
    requires OccursAt(s, "..", i)
    ensures s[i] == '.' && s[i + 1] == '.'
  {
    assert s[i..i + 2][0] == s[i] && s[i..i + 2][1] == s[i + 1];
  }

  lemma DotsOccur(s: string, i: nat)
    requires i + 1 < |s| && s[i] == '.' && s[i + 1] == '.'
    ensures OccursAt(s, "..", i)
  {
    assert s[i..i + 2] == "..";
  }

  /** Replacing backslashes by slashes keeps every other character in place. */
  lemma {:induction false} ReplaceBackslashInPlace(s: string)
    ensures |ReplaceChar(s, '\\', "/")| == |s|
    ensures forall k :: 0 <= k < |s| && s[k] != '\\' ==> ReplaceChar(s, '\\', "/")[k] == s[k]
    decreases |s|
  {
    if |s| > 0 {
      ReplaceBackslashInPlace(s[1..]);
    }
  }

  lemma SliceWithout(s: string, a: nat, b: nat, c: char)
    requires a <= b <= |s| && c !in s
    ensures c !in s[a..b]
  {
    forall k | 0 <= k < b - a ensures s[a..b][k] != c {
      assert s[a..b][k] == s[a + k];
    }
  }

  /** Collapsing slash runs adds no character. */
  lemma {:induction false} CollapseWithout(s: string, c: char)
    requires c !in s
    ensures c !in CollapseSlashes(s)
    decreases |s|
  {
    if |s| >= 2 {
      assert c !in s[1..] by { SliceWithout(s, 1, |s|, c); }
      CollapseWithout(s[1..], c);
    }
  }

  /** The cleaning steps of normalizeRelativePath before the final checks. */
  function Cleaned(path: string): (cleaned: string)
    ensures cleaned == [] || cleaned[0] != '/'
  {
    LTrimChar(CollapseSlashes(Trim(ReplaceChar(path, '\\', "/"))), '/')
  }

  /** Cleaning leaves no backslash. */
  lemma CleanedNoBackslash(path: string)
    ensures '\\' !in Cleaned(path)
  {
    var replaced := ReplaceChar(path, '\\', "/");
    var l := TrimLeft(replaced);
    var trimmed := Trim(replaced);
    var collapsed := CollapseSlashes(trimmed);
    var cleaned := Cleaned(path);
    SliceWithout(replaced, |replaced| - |l|, |replaced|, '\\');
    SliceWithout(l, 0, |trimmed|, '\\');
    CollapseWithout(trimmed, '\\');
    SliceWithout(collapsed, |collapsed| - |cleaned|, |collapsed|, '\\');
  }

  /** Dropping leading characters keeps a path free of double slashes. */
  lemma SuffixNoDoubleSlash(s: string, off: nat)
    requires off <= |s| && NoDoubleSlash(s)
    ensures NoDoubleSlash(s[off..])
  {
    forall j | 0 <= j < |s[off..]| - 1 ensures !(s[off..][j] == '/' && s[off..][j + 1] == '/') {
      assert s[off..][j] == s[off + j] && s[off..][j + 1] == s[off + j + 1];
    }
  }

  /** Cleaning leaves no double slash. */
  lemma CleanedNoDoubleSlash(path: string)
    ensures NoDoubleSlash(Cleaned(path))
  {
    var collapsed := CollapseSlashes(Trim(ReplaceChar(path, '\\', "/")));
    var cleaned := LTrimChar(collapsed, '/');
    SuffixNoDoubleSlash(collapsed, |collapsed| - |cleaned|);
  }

  /**
   * normalizeRelativePath: backslashes become slashes, the path is trimmed, slash runs are
   * collapsed and leading slashes dropped; an empty result or one containing ".." is
   * refused.  An accepted path is non-empty, relative, free of backslashes, double slashes
   * and "..".
   */
  function NormalizeRelativePath(path: string): (r: Option<string>)
    ensures r.Some? ==> r.value != "" && r.value[0] != '/' && '\\' !in r.value
    ensures r.Some? ==> NoDoubleSlash(r.value) && !Contains(r.value, "..")
  {
    var cleaned := Cleaned(path);
    if cleaned == "" || Contains(cleaned, "..") then None
    else
      CleanedNoBackslash(path);
      CleanedNoDoubleSlash(path);
      Some(cleaned)
  }

  lemma ReplaceKeepsDotDot(path: string, i: nat)
    requires OccursAt(path, "..", i)
    ensures OccursAt(ReplaceChar(path, '\\', "/"), "..", i)
  {
    var replaced := ReplaceChar(path, '\\', "/");
    ReplaceBackslashInPlace(path);
    DotsAt(path, i);
    assert replaced[i] == '.' && replaced[i + 1] == '.';
    DotsOccur(replaced, i);
  }

  lemma LTrimKeepsDotDot(s: string, k: nat) returns (j: nat)
    requires OccursAt(s, "..", k)
    ensures OccursAt(LTrimChar(s, '/'), "..", j)
  {
    var r := LTrimChar(s, '/');
    var off := |s| - |r|;
    assert s[k] == '.' by { assert s[k..k + 2][0] == s[k]; }
    assert k >= off;
    j := k - off;
    assert r[j..j + 2] == s[k..k + 2];
  }

  lemma OccursContains(s: string, p: string, i: nat)
    requires OccursAt(s, p, i)
    ensures Contains(s, p)
  {
    ContainsIffOccurs(s, p);
  }

  /** Any path with two adjacent dots is refused, whatever else it holds. */
  lemma DotDotRejected(path: string)
    requires Contains(path, "..")
    ensures NormalizeRelativePath(path).None?
  {
    ContainsIffOccurs(path, "..");
    var i :| OccursAt(path, "..", i);
    ReplaceKeepsDotDot(path, i);
    var replaced := ReplaceChar(path, '\\', "/");
    var j := TrimKeepsDotDot(replaced, i);
    var k := CollapseKeepsDotDot(Trim(replaced), j);
    var m := LTrimKeepsDotDot(CollapseSlashes(Trim(replaced)), k);
    OccursContains(Cleaned(path), "..", m);
  }

  /** A path that is already clean and relative is accepted unchanged. */
  lemma CleanPathAccepted(path: string)
    requires path != "" && path[0] != '/' && '\\' !in path
    requires !IsTrimChar(path[0]) && !IsTrimChar(path[|path| - 1])
    requires NoDoubleSlash(path) && !Contains(path, "..")
    ensures NormalizeRelativePath(path) == Some(path)
  {
    assert ReplaceChar(path, '\\', "/") == path;
    assert TrimLeft(path) == path;
    assert TrimRight(path) == path;
    CollapseFixesSingleSlashes(path);
  }

  /**
   * buildSharedPath: the shared root itself for an empty relative path; otherwise the root
   * without trailing slashes, one slash, and the relative path without leading slashes.
   */
  function BuildSharedPath(sharedRoot: string, relative: string): (r: string)
    ensures relative == "" ==> r == sharedRoot
    ensures relative != "" ==> StartsWith(r, RTrimChar(sharedRoot, '/') + "/")
    ensures relative != "" ==> EndsWith(r, "/" + LTrimChar(relative, '/'))
  {
    if relative == "" then sharedRoot
    else RTrimChar(sharedRoot, '/') + "/" + LTrimChar(relative, '/')
  }

  /**
   * A normalised relative path is appended below the root with exactly one slash between
   * them: the root part does not end with a slash and the relative part does not start
   * with one.
   */
  lemma SharedPathJoinedOnce(sharedRoot: string, path: string)
    requires NormalizeRelativePath(path).Some?
    ensures var rel := NormalizeRelativePath(path).value;
      var base := RTrimChar(sharedRoot, '/');
      var r := BuildSharedPath(sharedRoot, rel);
      r == base + "/" + rel && r[|base|] == '/' && r[|base| + 1] != '/'
      && (|base| > 0 ==> r[|base| - 1] != '/')
  {
    var rel := NormalizeRelativePath(path).value;
    assert LTrimChar(rel, '/') == rel;
  }

  /**
   * remoteFileExists: exit code 0 means the file exists, 1 that it does not; any other code
   * is a failure whose message is the trimmed output, or a fixed message naming the path
   * when there was no output.
   */
  function RemoteFileExists(exitCode: int, output: string, remotePath: string): (r: Result<bool, string>)
    ensures r.Ok? <==> exitCode == 0 || exitCode == 1
    ensures r == Ok(true) <==> exitCode == 0
    ensures r.Err? ==> r.error != ""
    ensures r.Err? && !IsBlank(output) ==> r.error == Trim(output)
    ensures r.Err? && IsBlank(output) ==> EndsWith(r.error, remotePath)
  {
    if exitCode == 0 then Ok(true)
    else if exitCode == 1 then Ok(false)
    else
      var trimmed := Trim(output);
      TrimEmptyIff(output);
      Err(if trimmed == "" then "Failed checking remote file: " + remotePath else trimmed)
  }
}
