/**
 * Discovery of the console commands: every "*Command.php" file under app/Console names a
 * class in the DeployerPHP\Console namespace, and the command classes found are listed in
 * sorted order.
 */
module CommandDiscovery {
  import opened Wrappers
  import opened PhpStrings
  import opened Sorting

  const ConsolePath: string := "app/Console"
  const NamespacePrefix: string := "DeployerPHP\\Console\\"

  /**
   * substr($s, $start, -4) for a start within the string: from `start` up to the last four
   * characters, or nothing when those overlap the start.
   */
  function SliceDropLast4(s: string, start: nat): (r: string)
    requires start <= |s|
    ensures |s| - 4 >= start ==> r == s[start..|s| - 4]
    ensures |s| - 4 < start ==> r == ""
  {
    if |s| - 4 >= start then s[start..|s| - 4] else ""
  }

  /**
   * filePathToClassName: a path below the console directory (trailing slashes of the
   * directory ignored) becomes the namespace prefix followed by the relative path without its
   * last four characters, with slashes turned into backslashes; any other path has no class.
   */
  function FilePathToClassName(filePath: string, consolePath: string): (r: Option<string>)
    ensures r.Some? <==> StartsWith(filePath, RTrimChar(consolePath, '/') + "/")
    ensures r.Some? ==> StartsWith(r.value, NamespacePrefix) && '/' !in r.value[|NamespacePrefix|..]
  {
    var dir := RTrimChar(consolePath, '/') + "/";
    if !StartsWith(filePath, dir) then None
    else
      var relativePath := SliceDropLast4(filePath, |dir|);
      var suffix := ReplaceChar(relativePath, '/', "\\");
      assert (NamespacePrefix + suffix)[|NamespacePrefix|..] == suffix;
      Some(NamespacePrefix + suffix)
  }

  /** Turning backslashes back into slashes undoes the conversion of a path without backslashes. */
  lemma {:induction false} ReplaceBack(s: string)
    requires '\\' !in s
    ensures ReplaceChar(ReplaceChar(s, '/', "\\"), '\\', "/") == s
    decreases |s|
  {
    if |s| > 0 {
      assert s == [s[0]] + s[1..];
      assert '\\' !in s[1..];
      var head := if s[0] == '/' then "\\" else [s[0]];
      var t := ReplaceChar(s[1..], '/', "\\");
      assert ReplaceChar(s, '/', "\\") == head + t;
      ReplaceCharAppend(head, t, '\\', "/");
      assert ReplaceChar(head, '\\', "/") == [s[0]];
      ReplaceBack(s[1..]);
    }
  }

  lemma {:induction false} ReplaceCharAppend(a: string, b: string, c: char, rep: string)
    ensures ReplaceChar(a + b, c, rep) == ReplaceChar(a, c, rep) + ReplaceChar(b, c, rep)
    decreases |a|
  {
    if |a| == 0 {
      assert a + b == b;
    } else {
      assert (a + b)[0] == a[0] && (a + b)[1..] == a[1..] + b;
      ReplaceCharAppend(a[1..], b, c, rep);
    }
  }

  /**
   * A command file "<dir>/<relative>.php" maps to the prefix and the relative path with
   * backslashes, and that relative path can be read back from the class name.
   */
  lemma ClassNameRoundTrip(consolePath: string, relative: string)
    requires '\\' !in relative
    ensures var dir := RTrimChar(consolePath, '/') + "/";
      var r := FilePathToClassName(dir + relative + ".php", consolePath);
      r == Some(NamespacePrefix + ReplaceChar(relative, '/', "\\"))
      && ReplaceChar(r.value[|NamespacePrefix|..], '\\', "/") == relative
  {
    var dir := RTrimChar(consolePath, '/') + "/";
    var path := dir + relative + ".php";
    assert path[..|dir|] == dir;
    assert path[|dir|..|path| - 4] == relative;
    var suffix := ReplaceChar(relative, '/', "\\");
    assert (NamespacePrefix + suffix)[|NamespacePrefix|..] == suffix;
    ReplaceBack(relative);
  }

  /** A file the directory iterator yields. */
  datatype FileEntry = FileEntry(isFile: bool, filename: string, realPath: Option<string>)

  /** The class of a file, when discovery keeps it: a file named "*Command.php" with a real path below the console directory. */
  function CandidateClass(file: FileEntry, consolePath: string): Option<string> {
    if !file.isFile || !EndsWith(file.filename, "Command.php") || file.realPath.None? then None
    else FilePathToClassName(file.realPath.value, consolePath)
  }

  /** The command classes of the first files, in iteration order. */
  function DiscoveredSpec(files: seq<FileEntry>, consolePath: string, isValidCommandClass: string -> bool): (r: seq<string>)
    ensures forall c :: c in r ==> StartsWith(c, NamespacePrefix) && isValidCommandClass(c)
    decreases |files|
  {
    if |files| == 0 then []
    else
      var rest := DiscoveredSpec(files[..|files| - 1], consolePath, isValidCommandClass);
      var c := CandidateClass(files[|files| - 1], consolePath);
      rest + (if c.Some? && isValidCommandClass(c.value) then [c.value] else [])
  }

  /**
   * discover: the classes of the "*Command.php" files below the console directory that are
   * registrable commands (`isValidCommandClass` stands for the reflection check), sorted
   * byte-wise.  A missing console directory gives no commands.
   */
  method Discover(consoleIsDir: bool, files: seq<FileEntry>, consolePath: string, isValidCommandClass: string -> bool)
    returns (commands: seq<string>)
    ensures !consoleIsDir ==> commands == []
    ensures consoleIsDir ==> multiset(commands) == multiset(DiscoveredSpec(files, consolePath, isValidCommandClass))
    ensures SortedBy(commands, LexLe)
  {
    if !consoleIsDir {
      return [];
    }
    commands := [];
    for i := 0 to |files|
      invariant commands == DiscoveredSpec(files[..i], consolePath, isValidCommandClass)
    {
      assert files[..i + 1][..i] == files[..i];
      var file := files[i];
      if !file.isFile {
        continue;
      }
      if !EndsWith(file.filename, "Command.php") {
        continue;
      }
      if file.realPath.None? {
        continue;
      }
      var className := FilePathToClassName(file.realPath.value, consolePath);
      if className.None? {
        continue;
      }
      if !isValidCommandClass(className.value) {
        continue;
      }
      commands := commands + [className.value];
    }
    assert files[..|files|] == files;
    LexOrder();
    commands := SortBy(commands, LexLe);
  }

  /** Every discovered command is a valid class in the console namespace. */
  lemma DiscoveredAreCommands(files: seq<FileEntry>, consolePath: string, isValidCommandClass: string -> bool, commands: seq<string>)
    requires multiset(commands) == multiset(DiscoveredSpec(files, consolePath, isValidCommandClass))
    ensures forall c :: c in commands ==> StartsWith(c, NamespacePrefix) && isValidCommandClass(c)
  {
    forall c | c in commands ensures StartsWith(c, NamespacePrefix) && isValidCommandClass(c) {
      assert c in multiset(commands);
      assert c in DiscoveredSpec(files, consolePath, isValidCommandClass);
    }
  }

  /** Files that are not named "*Command.php" never yield a command. */
  lemma OnlyCommandFiles(file: FileEntry, consolePath: string)
    requires !EndsWith(file.filename, "Command.php")
    ensures CandidateClass(file, consolePath).None?
  {
  }
}
