/**
 * The choices `server:install` makes about the deploy key and about PHP: which versions are
 * offered and which is the default, which extensions can be picked and how the selection is
 * checked and completed, and whether the new version becomes the server's default.
 */
module ServerInstall {
  import opened Wrappers
  import opened PhpStrings
  import opened PhpValues
  import opened Sorting

  datatype InstallError =
    /** "Cannot use both --generate-deploy-key and --custom-deploy-key". */
    | DeployKeyConflict
    /** "No PHP versions available in package list". */
    | NoPhpVersions
    /** "No PHP 8.x versions available in package list". */
    | NoPhp8Versions
    /** "No extensions available for PHP <v>". */
    | NoExtensions(version: string)
    /** "Required extension(s) not available for PHP <v>: ...". */
    | RequiredMissing(version: string, missing: seq<string>)

  //
  // Deploy key
  // ----

  /** Where the deploy key comes from. */
  datatype DeployKeySource =
    /** The server generates the key pair. */
    | ServerGenerated
    /** The user's own key pair, from the path given with --custom-deploy-key. */
    | CustomKeyPair(path: string)
    /** Neither option was given: the user is asked. */
    | AskUser

  /**
   * The deploy-key options: --generate-deploy-key and --custom-deploy-key exclude each
   * other; either one decides, and without both the user is asked.
   */
  function DeployKeySourceOf(generateKey: bool, customKeyPath: Option<string>): (r: Result<DeployKeySource, InstallError>)
    ensures r.Err? <==> generateKey && customKeyPath.Some?
    ensures r == Ok(AskUser) <==> !generateKey && customKeyPath.None?
    ensures r.Ok? && generateKey ==> r.value == ServerGenerated
    ensures r.Ok? && r.value.CustomKeyPair? ==> Some(r.value.path) == customKeyPath
  {
    if generateKey && customKeyPath.Some? then Err(DeployKeyConflict)
    else if generateKey then Ok(ServerGenerated)
    else if customKeyPath.Some? then Ok(CustomKeyPair(customKeyPath.value))
    else Ok(AskUser)
  }

  //
  // PHP versions
  // ----

  /** `(string) $key` starts with "8.": only string keys can, since an integer has no dot. */
  predicate IsPhp8Key(k: Key) {
    k.KeyStr? && StartsWith(k.name, "8.")
  }

  /** The package list's PHP versions that start with "8.", in the list's order. */
  function Php8Versions(phpPackages: seq<(Key, Value)>): (r: seq<string>)
    ensures |r| <= |phpPackages|
    ensures forall v :: v in r <==> exists i :: 0 <= i < |phpPackages| && phpPackages[i].0 == KeyStr(v) && StartsWith(v, "8.")
  {
    if |phpPackages| == 0 then []
    else
      var rest := Php8Versions(phpPackages[1..]);
      assert forall i :: 0 < i < |phpPackages| ==> phpPackages[i] == phpPackages[1..][i - 1];
      assert forall i :: 0 <= i < |phpPackages| - 1 ==> phpPackages[1..][i] == phpPackages[i + 1];
      if IsPhp8Key(phpPackages[0].0) then [phpPackages[0].0.name] + rest else rest
  }

  /**
   * The versions offered for installation: the "8." versions of the PHP package list,
   * newest first under `newerOrSame` (PHP's natural order, reversed).  An empty package
   * list and a list without any 8.x version are failures.
   */
  method OfferedVersions(phpPackages: seq<(Key, Value)>, newerOrSame: (string, string) -> bool)
    returns (r: Result<seq<string>, InstallError>)
    requires TotalPreorder(newerOrSame)
    ensures |phpPackages| == 0 ==> r == Err(NoPhpVersions)
    ensures |phpPackages| > 0 ==> (r == Err(NoPhp8Versions) <==> Php8Versions(phpPackages) == [])
    ensures r.Ok? ==> r.value != [] && SortedBy(r.value, newerOrSame)
    ensures r.Ok? ==> multiset(r.value) == multiset(Php8Versions(phpPackages))
  {
    if |phpPackages| == 0 {
      return Err(NoPhpVersions);
    }
    var versions := Php8Versions(phpPackages);
    var sorted := SortBy(versions, newerOrSame);
    if sorted == [] {
      assert |versions| == |multiset(versions)| == 0;
      return Err(NoPhp8Versions);
    }
    assert |versions| == |multiset(sorted)| > 0;
    return Ok(sorted);
  }

  /** The version preselected in the prompt: "8.5" when offered, otherwise the newest. */
  function DefaultVersion(versions: seq<string>): (r: string)
    requires versions != []
    ensures r in versions
    ensures r == "8.5" || (r == versions[0] && "8.5" !in versions)
  {
    if "8.5" in versions then "8.5" else versions[0]
  }

  /** validatePhpVersionInput: the value must be a string among the offered versions. */
  datatype VersionInputError = VersionNotString | VersionNotAvailable(version: string)

  function ValidatePhpVersionInput(value: Value, availableVersions: seq<string>): (r: Option<VersionInputError>)
    ensures r.None? <==> value.Str? && value.s in availableVersions
    ensures !value.Str? ==> r == Some(VersionNotString)
  {
    if !value.Str? then Some(VersionNotString)
    else if value.s !in availableVersions then Some(VersionNotAvailable(value.s))
    else None
  }

  //
  // Installed versions
  // ----

  /** A stored version entry counts when it is an array with a version, or a string or integer. */
  predicate CountsAsInstalled(v: Value) {
    (v.Arr? && IsSet(v.entries, KeyStr("version"))) || v.Str? || v.Int?
  }

  /** What is recorded for a counted entry: its version field, or the entry itself. */
  function InstalledVersion(v: Value): Value
    requires CountsAsInstalled(v)
  {
    if v.Arr? && IsSet(v.entries, KeyStr("version")) then Lookup(v.entries, KeyStr("version")).value else v
  }

  /** The installed versions recorded from the first entries of `info['php']['versions']`. */
  function InstalledSpec(versions: seq<(Key, Value)>): (r: seq<Value>)
    decreases |versions|
  {
    if |versions| == 0 then []
    else
      var last := versions[|versions| - 1].1;
      InstalledSpec(versions[..|versions| - 1]) + (if CountsAsInstalled(last) then [InstalledVersion(last)] else [])
  }

  /** Nothing is installed exactly when no entry counts. */
  lemma {:induction false} NothingInstalledIff(versions: seq<(Key, Value)>)
    ensures InstalledSpec(versions) == [] <==> forall i :: 0 <= i < |versions| ==> !CountsAsInstalled(versions[i].1)
    decreases |versions|
  {
    if |versions| > 0 {
      var init := versions[..|versions| - 1];
      NothingInstalledIff(init);
      assert forall i :: 0 <= i < |init| ==> init[i] == versions[i];
    }
  }

  /** The `versions` list of the server's PHP information, when the information has one. */
  function StoredVersions(info: seq<(Key, Value)>): Option<seq<(Key, Value)>> {
    match Lookup(info, KeyStr("php"))
    case Some(Arr(php)) =>
      (match Lookup(php, KeyStr("versions"))
       case Some(Arr(vs)) => Some(vs)
       case _ => None)
    case _ => None
  }

  /** The loop of installPhp that collects the installed PHP versions from the server info. */
  method InstalledPhpVersions(info: seq<(Key, Value)>) returns (installed: seq<Value>)
    ensures StoredVersions(info).None? ==> installed == []
    ensures StoredVersions(info).Some? ==> installed == InstalledSpec(StoredVersions(info).value)
  {
    installed := [];
    var stored := StoredVersions(info);
    if stored.Some? {
      var versions := stored.value;
      for i := 0 to |versions|
        invariant installed == InstalledSpec(versions[..i])
      {
        assert versions[..i + 1][..i] == versions[..i];
        var version := versions[i].1;
        if version.Arr? && IsSet(version.entries, KeyStr("version")) {
          installed := installed + [Lookup(version.entries, KeyStr("version")).value];
        } else if version.Str? || version.Int? {
          installed := installed + [version];
        }
      }
      assert versions[..|versions|] == versions;
    }
  }

  //
  // Extensions
  // ----

  const RequiredExtensions: seq<string> := ["cli", "fpm"]

  const DefaultExtensions: seq<string> := [
    "bcmath", "common", "curl", "gd", "gmp",
    "igbinary", "imagick", "imap", "intl", "mbstring",
    "memcached", "msgpack", "mysql", "opcache", "pgsql",
    "readline", "redis", "soap", "sqlite3", "swoole", "xml", "zip"]

  /** The elements of `s` that are not in `t`, in order (array_diff, reindexed). */
  function Without(s: seq<string>, t: seq<string>): (r: seq<string>)
    ensures |r| <= |s|
    ensures forall x :: x in r <==> x in s && x !in t
  {
    if |s| == 0 then []
    else
      var rest := Without(s[1..], t);
      assert forall x :: x in s <==> x == s[0] || x in s[1..];
      if s[0] in t then rest else [s[0]] + rest
  }

  /** The elements of `s` that are also in `t`, in order (array_intersect, reindexed). */
  function Within(s: seq<string>, t: seq<string>): (r: seq<string>)
    ensures |r| <= |s|
    ensures forall x :: x in r <==> x in s && x in t
  {
    if |s| == 0 then []
    else
      var rest := Within(s[1..], t);
      assert forall x :: x in s <==> x == s[0] || x in s[1..];
      if s[0] in t then [s[0]] + rest else rest
  }

  /** The string values of an extension list (the list is annotated as strings). */
  function ExtensionNames(entries: seq<(Key, Value)>): (r: seq<string>)
    ensures |r| <= |entries|
  {
    if |entries| == 0 then []
    else (if entries[0].1.Str? then [entries[0].1.s] else []) + ExtensionNames(entries[1..])
  }

  /** The extensions the package list offers for one PHP version. */
  function AvailableExtensions(phpPackages: seq<(Key, Value)>, phpVersion: string): seq<string> {
    match Lookup(phpPackages, KeyStr(phpVersion))
    case Some(Arr(data)) =>
      (match Coalesce(data, KeyStr("extensions"), Arr([]))
       case Arr(exts) => ExtensionNames(exts)
       case _ => [])
    case _ => []
  }

  /**
   * The extensions offered for selection and the ones preselected: the version must offer
   * some extensions, including both required ones; those are removed from the choice, and
   * the defaults that remain are preselected, in the defaults' order.
   */
  function ExtensionChoice(available: seq<string>, phpVersion: string): (r: Result<(seq<string>, seq<string>), InstallError>)
    ensures r.Ok? <==> available != [] && "cli" in available && "fpm" in available
    ensures r.Ok? ==> forall x :: x in r.value.0 <==> x in available && x !in RequiredExtensions
    ensures r.Ok? ==> forall x :: x in r.value.1 <==> x in DefaultExtensions && x in r.value.0
    ensures available != [] && r.Err? ==> r == Err(RequiredMissing(phpVersion, Without(RequiredExtensions, available)))
  {
    if available == [] then Err(NoExtensions(phpVersion))
    else
      var missing := Without(RequiredExtensions, available);
      if missing != [] then Err(RequiredMissing(phpVersion, missing))
      else
        assert "cli" !in missing && "fpm" !in missing;
        var selectable := Without(available, RequiredExtensions);
        Ok((selectable, Within(DefaultExtensions, selectable)))
  }

  /** What the extension option or prompt gave: a comma-separated string, a list, or anything else. */
  datatype ExtensionsInput = CommaList(s: string) | Selected(items: seq<string>) | NotAList

  /** The non-empty trimmed pieces of a comma-separated string. */
  function CommaItems(s: string): (r: seq<string>)
    ensures forall x :: x in r ==> x != "" && ',' !in x
  {
    var parts := Split(s, ',');
    TrimmedPartsNoComma(parts);
    NonEmpty(seq(|parts|, k requires 0 <= k < |parts| => Trim(parts[k])))
  }

  lemma TrimmedPartsNoComma(parts: seq<string>)
    requires forall k :: 0 <= k < |parts| ==> ',' !in parts[k]
    ensures forall k :: 0 <= k < |parts| ==> ',' !in Trim(parts[k])
  {
    forall k | 0 <= k < |parts| ensures ',' !in Trim(parts[k]) {
      TrimKeepsAbsent(parts[k], ',');
    }
  }

  /** trim() only removes characters, so a character absent before is absent after. */
  lemma TrimKeepsAbsent(p: string, c: char)
    requires c !in p
    ensures c !in Trim(p)
  {
    var l := TrimLeft(p);
    forall k | 0 <= k < |l| ensures l[k] != c {
      assert l[k] == p[|p| - |l| + k];
    }
    var r := TrimRight(l);
    forall k | 0 <= k < |r| ensures r[k] != c {
      assert r[k] == l[k];
    }
  }

  function NonEmpty(parts: seq<string>): (r: seq<string>)
    ensures forall x :: x in r <==> x in parts && x != ""
  {
    if |parts| == 0 then []
    else
      var rest := NonEmpty(parts[1..]);
      assert forall x :: x in parts <==> x == parts[0] || x in parts[1..];
      if parts[0] == "" then rest else [parts[0]] + rest
  }

  /** The selected extensions as a list: the pieces of a string, or the list itself. */
  function Normalized(input: ExtensionsInput): seq<string>
    requires !input.NotAList?
  {
    if input.CommaList? then CommaItems(input.s) else input.items
  }

  datatype ExtensionsInputError =
    /** "Invalid PHP extensions selection". */
    | NotAnExtensionList
    /** "At least one optional extension must be selected". */
    | NoOptionalExtension
    /** "Unknown extension(s): ...". */
    | UnknownExtensions(unknown: seq<string>)

  /**
   * validatePhpExtensionsInput: required extensions in the selection are ignored; at least
   * one other extension must remain, and all of them must be selectable.
   */
  function ValidatePhpExtensionsInput(input: ExtensionsInput, selectable: seq<string>, required: seq<string>): (r: Option<ExtensionsInputError>)
    ensures input.NotAList? ==> r == Some(NotAnExtensionList)
    ensures r.None? <==> (!input.NotAList?
      && (exists x :: x in Normalized(input) && x !in required)
      && (forall x :: x in Normalized(input) ==> x in required || x in selectable))
    ensures r.Some? && r.value.UnknownExtensions? ==>
      forall x :: x in r.value.unknown <==> x in Normalized(input) && x !in required && x !in selectable
  {
    if input.NotAList? then Some(NotAnExtensionList)
    else
      var extensions := Without(Normalized(input), required);
      if extensions == [] then
        assert forall x :: x in Normalized(input) ==> x in required;
        Some(NoOptionalExtension)
      else
        var unknown := Without(extensions, selectable);
        assert extensions[0] in Normalized(input);
        if unknown != [] then
          assert unknown[0] in Normalized(input) && unknown[0] !in required && unknown[0] !in selectable;
          Some(UnknownExtensions(unknown))
        else None
  }

  /** array_unique, reindexed: the first occurrence of each element, in order. */
  function Dedup(s: seq<string>): (r: seq<string>)
    ensures forall x :: x in r <==> x in s
    ensures forall i, j :: 0 <= i < j < |r| ==> r[i] != r[j]
    decreases |s|
  {
    if |s| == 0 then []
    else
      var d := Dedup(s[..|s| - 1]);
      var last := s[|s| - 1];
      assert forall x :: x in s <==> x in s[..|s| - 1] || x == last by {
        assert s == s[..|s| - 1] + [last];
      }
      if last in d then d else d + [last]
  }

  /** Deduplicating a longer list keeps the deduplicated prefix in front. */
  lemma {:induction false} DedupPrefix(a: seq<string>, b: seq<string>)
    ensures |Dedup(a)| <= |Dedup(a + b)| && Dedup(a + b)[..|Dedup(a)|] == Dedup(a)
    decreases |b|
  {
    if |b| == 0 {
      assert a + b == a;
    } else {
      var b' := b[..|b| - 1];
      DedupPrefix(a, b');
      assert (a + b)[..|a + b| - 1] == a + b';
    }
  }

  /** The extensions installed: cli and fpm first, then the selection, each once. */
  function MergedExtensions(normalized: seq<string>): (r: seq<string>)
    ensures forall x :: x in r <==> x in RequiredExtensions || x in normalized
    ensures forall i, j :: 0 <= i < j < |r| ==> r[i] != r[j]
  {
    Dedup(RequiredExtensions + normalized)
  }

  /** The merged list always starts with "cli" and "fpm". */
  lemma MergedStartsWithRequired(normalized: seq<string>)
    ensures |MergedExtensions(normalized)| >= 2
    ensures MergedExtensions(normalized)[..2] == RequiredExtensions
  {
    DedupPrefix(RequiredExtensions, normalized);
    assert Dedup(["cli"]) == ["cli"] by {
      assert ["cli"][..0] == [];
    }
    assert RequiredExtensions[..1] == ["cli"];
    assert Dedup(RequiredExtensions) == RequiredExtensions;
  }

  /** Selecting only known optional extensions installs exactly those plus cli and fpm. */
  lemma AcceptedSelectionInstalled(input: ExtensionsInput, selectable: seq<string>, x: string)
    requires ValidatePhpExtensionsInput(input, selectable, RequiredExtensions).None?
    ensures x in MergedExtensions(Normalized(input)) <==> x in RequiredExtensions || x in Normalized(input)
    ensures x in MergedExtensions(Normalized(input)) ==> x in RequiredExtensions || x in selectable
  {
  }

  //
  // Default version
  // ----

  /** `(string) $value` for the values a stored default can hold; floats are not modelled. */
  function StringCast(v: Value): Option<string> {
    match v
    case Null => Some("")
    case Bool(b) => Some(if b then "1" else "")
    case Int(i) => Some(if i >= 0 then NatToString(i) else "-" + NatToString(-i))
    case Str(s) => Some(s)
    case Arr(_) => Some("Array")
    case Other => None
  }

  /** The server's current default PHP version is the one being installed. */
  predicate IsAlreadyDefault(phpInfo: Value, phpVersion: string) {
    var current := if phpInfo.Arr? then Coalesce(phpInfo.entries, KeyStr("default"), Null) else Null;
    !current.Null? && StringCast(current) == Some(phpVersion)
  }

  /**
   * The set-as-default decision of installPhp: a first PHP install, or a version that is
   * already the default, becomes the default without asking; otherwise the user's `answer`
   * decides.
   */
  method DecideSetAsDefault(installedCount: nat, phpInfo: Value, phpVersion: string, answer: bool)
    returns (setAsDefault: bool, defaultPrompted: bool)
    ensures defaultPrompted <==> installedCount > 0 && !IsAlreadyDefault(phpInfo, phpVersion)
    ensures setAsDefault == if defaultPrompted then answer else true
  {
    defaultPrompted := false;
    if installedCount == 0 {
      setAsDefault := true;
    } else {
      var current := if phpInfo.Arr? then Coalesce(phpInfo.entries, KeyStr("default"), Null) else Null;
      var isAlreadyDefault := !current.Null? && StringCast(current) == Some(phpVersion);
      if isAlreadyDefault {
        setAsDefault := true;
      } else {
        defaultPrompted := true;
        setAsDefault := answer;
      }
    }
  }

  /** A default stored as the same string, or as the integer whose numeral it is, is recognised. */
  lemma StoredDefaultRecognised(rest: seq<(Key, Value)>, phpVersion: string, n: nat)
    ensures IsAlreadyDefault(Arr([(KeyStr("default"), Str(phpVersion))] + rest), phpVersion)
    ensures IsAlreadyDefault(Arr([(KeyStr("default"), Int(n))] + rest), NatToString(n))
  {
  }
}
