/**
 * The supported server distributions: their display names, codenames, default SSH users
 * and which releases are supported.  PHP's version_compare is modelled on dotted numeric
 * versions ("24.04", "12", "12.5"): the components are compared as numbers from the left,
 * and a version that is a proper prefix of another is the smaller.
 */
module Distribution {
  import opened Wrappers
  import opened PhpStrings

  datatype Distribution = Ubuntu | Debian
  {
    /** The enum's backing value. */
    function Slug(): (r: string)
      ensures r == "ubuntu" || r == "debian"
    {
      match this
      case Ubuntu => "ubuntu"
      case Debian => "debian"
    }

    function DisplayName(): (r: string)
      ensures r != "" && ToLower(r) == Slug()
    {
      match this
      case Ubuntu => "Ubuntu"
      case Debian => "Debian"
    }

    /** The codename of a release, with "LTS" or "Stable" for a release the table does not know. */
    function Codename(version: string): (r: string)
      ensures this == Ubuntu ==> (r == "LTS" <==> version !in UbuntuCodenames)
      ensures this == Debian ==> (r == "Stable" <==> version !in DebianCodenames)
    {
      match this
      case Ubuntu => if version in UbuntuCodenames then UbuntuCodenames[version] else "LTS"
      case Debian => if version in DebianCodenames then DebianCodenames[version] else "Stable"
    }

    /** "Ubuntu <v> LTS (<codename>)" or "Debian <v> (<codename>)". */
    function FormatVersion(version: string): (r: string)
      ensures r == DisplayName() + " " + version + (if this == Ubuntu then " LTS" else "") + " (" + Codename(version) + ")"
    {
      match this
      case Ubuntu => DisplayName() + " " + version + " LTS (" + Codename(version) + ")"
      case Debian => DisplayName() + " " + version + " (" + Codename(version) + ")"
    }

    function DefaultSshUsername(): (r: string)
      ensures r != "" && r != "root"
      ensures r == "ubuntu" <==> this == Ubuntu
    {
      match this
      case Ubuntu => "ubuntu"
      case Debian => "admin"
    }

    /**
     * A supported release: an Ubuntu LTS release from 24.04 on, or a Debian release from 12 on.
     */
    predicate IsValidVersion(version: string)
      ensures IsValidVersion(version) ==> VersionAtLeast(version, MinVersion())
      ensures IsValidVersion(version) && this == Ubuntu ==> IsUbuntuLts(version)
    {
      match this
      case Ubuntu => IsUbuntuLts(version) && VersionAtLeast(version, MinUbuntuVersion)
      case Debian => VersionAtLeast(version, MinDebianVersion)
    }

    function SupportedVersions(): (r: string)
      ensures StartsWith(r, MinVersion())
    {
      match this
      case Ubuntu => MinUbuntuVersion + " LTS or newer LTS releases"
      case Debian => MinDebianVersion + " or newer"
    }

    function MinVersion(): string {
      match this
      case Ubuntu => MinUbuntuVersion
      case Debian => MinDebianVersion
    }
  }

  const MinUbuntuVersion: string := "24.04"
  const MinDebianVersion: string := "12"

  const UbuntuCodenames: map<string, string> := map["24.04" := "Noble Numbat", "26.04" := "TBD"]
  const DebianCodenames: map<string, string> := map["12" := "Bookworm", "13" := "Trixie", "14" := "Forky"]

  /** Distribution::from(): the case with the given backing value. */
  function FromSlug(slug: string): (r: Option<Distribution>)
    ensures r.Some? ==> r.value.Slug() == slug
    ensures r.None? <==> slug !in Slugs()
  {
    if slug == "ubuntu" then Some(Ubuntu)
    else if slug == "debian" then Some(Debian)
    else None
  }

  /** The backing values of all cases, in declaration order. */
  function Slugs(): (r: seq<string>)
    ensures |r| == 2 && r[0] != r[1]
    ensures forall d: Distribution :: d.Slug() in r
  {
    [Ubuntu.Slug(), Debian.Slug()]
  }

  /** Every case is found again from its backing value. */
  lemma FromSlugRoundTrip(d: Distribution)
    ensures FromSlug(d.Slug()) == Some(d)
  {
  }

  //
  // Ubuntu LTS releases
  // ----

  /** The two-digit year of a "YY.04" version. */
  function Year(v: string): (y: nat)
    requires |v| >= 2 && IsDigit(v[0]) && IsDigit(v[1])
    ensures y < 100
  {
    10 * DigitValue(v[0]) + DigitValue(v[1])
  }

  /**
   * isUbuntuLts: two digits, ".04", and an even year.  The `$` anchor also lets a single
   * final line feed through.
   */
  predicate IsUbuntuLts(version: string)
    ensures IsUbuntuLts(version) ==>
      var parts := VersionParts(Chomp(version));
      DottedNumeric(Chomp(version)) && parts == [parts[0], 4] && parts[0] % 2 == 0
  {
    var c := Chomp(version);
    if |c| == 5 && IsDigit(c[0]) && IsDigit(c[1]) && c[2..] == ".04" then
      LtsParts(c);
      Year(c) % 2 == 0
    else false
  }

  //
  // version_compare on dotted numeric versions
  // ----

  /** Digit runs separated by single dots. */
  predicate DottedNumeric(v: string)
    decreases |v|
  {
    var n := DigitPrefixLength(v);
    n > 0 && (n == |v| || (v[n] == '.' && DottedNumeric(v[n + 1..])))
  }

  /** The numeric components of a dotted version. */
  function VersionParts(v: string): (parts: seq<nat>)
    ensures |parts| >= 1
    decreases |v|
  {
    var n := DigitPrefixLength(v);
    [LeadingDigitsValue(v[..n])] + (if n < |v| && v[n] == '.' then VersionParts(v[n + 1..]) else [])
  }

  /** Component-wise comparison from the left; a proper prefix is the smaller. */
  predicate PartsAtLeast(a: seq<nat>, b: seq<nat>)
    decreases |b|
  {
    if |b| == 0 then true
    else if |a| == 0 then false
    else a[0] > b[0] || (a[0] == b[0] && PartsAtLeast(a[1..], b[1..]))
  }

  /** version_compare($v, $min, '>='), for a dotted numeric `v`. */
  predicate VersionAtLeast(v: string, min: string) {
    DottedNumeric(v) && PartsAtLeast(VersionParts(v), VersionParts(min))
  }

  lemma {:induction false} PartsAtLeastReflexive(a: seq<nat>)
    ensures PartsAtLeast(a, a)
    decreases |a|
  {
    if |a| > 0 {
      PartsAtLeastReflexive(a[1..]);
    }
  }

  /** Every version compares at least as large as itself. */
  lemma VersionAtLeastReflexive(v: string)
    requires DottedNumeric(v)
    ensures VersionAtLeast(v, v)
  {
    PartsAtLeastReflexive(VersionParts(v));
  }

  lemma TwoDigitsValue(v: string)
    requires |v| == 2 && IsDigit(v[0]) && IsDigit(v[1])
    ensures LeadingDigitsValue(v) == Year(v)
  {
    var d0, d1 := DigitValue(v[0]), DigitValue(v[1]);
    assert v[1..][0] == v[1] && v[1..][1..] == [];
    assert LeadingDigitsValueAcc(v[1..][1..], 10 * d0 + d1) == 10 * d0 + d1;
    assert LeadingDigitsValueAcc(v[1..], d0) == 10 * d0 + d1;
    assert LeadingDigitsValueAcc(v, 0) == LeadingDigitsValueAcc(v[1..], d0);
  }

  /** A "YY.04" version is dotted numeric with components YY and 4. */
  lemma LtsParts(v: string)
    requires |v| == 5 && IsDigit(v[0]) && IsDigit(v[1]) && v[2..] == ".04"
    ensures DottedNumeric(v)
    ensures VersionParts(v) == [Year(v), 4]
  {
    assert v == v[..2] + v[2..];
    DigitPrefixOf(v[..2], v[2..]);
    assert v[2] == '.';
    var rest := v[3..];
    assert rest == "04";
    DigitPrefixOf(rest, []);
    assert rest[..2] == rest;
    assert LeadingDigitsValue("04") == 4 by {
      assert "04"[1..] == "4";
      assert "4"[1..] == [];
    }
    TwoDigitsValue(v[..2]);
  }

  /** The Ubuntu minimum, 24.04, has components 24 and 4. */
  lemma MinUbuntuParts()
    ensures VersionParts(MinUbuntuVersion) == [24, 4]
  {
    var v := MinUbuntuVersion;
    assert v[..2] == "24" && v[2..] == ".04";
    LtsParts(v);
  }

  /** The Debian minimum, 12, has the one component 12. */
  lemma MinDebianParts()
    ensures VersionParts(MinDebianVersion) == [12]
  {
    var v := MinDebianVersion;
    assert DigitPrefixLength(v) == 2 by {
      DigitPrefixOf(v, []);
      assert v + [] == v;
    }
    assert v[..2] == v;
    assert v[1..][1..] == [];
  }

  /**
   * An Ubuntu release without a trailing line feed is supported exactly when it is an LTS
   * release ("YY.04" with an even year) whose year is at least 24.
   */
  lemma UbuntuValidIff(v: string)
    requires Chomp(v) == v
    ensures Ubuntu.IsValidVersion(v) <==>
      (|v| == 5 && IsDigit(v[0]) && IsDigit(v[1]) && v[2..] == ".04" && Year(v) % 2 == 0 && Year(v) >= 24)
  {
    MinUbuntuParts();
    if |v| == 5 && IsDigit(v[0]) && IsDigit(v[1]) && v[2..] == ".04" {
      LtsParts(v);
      assert [Year(v), 4][1..] == [4];
      assert [24, 4][1..] == [4];
      assert PartsAtLeast([4], [4]) by { PartsAtLeastReflexive([4]); }
    }
  }

  /** A release made of digits only is a supported Debian release exactly when it is 12 or more. */
  lemma DebianDigitsValidIff(v: string)
    requires IsDigits(v)
    ensures Debian.IsValidVersion(v) <==> LeadingDigitsValue(v) >= 12
  {
    MinDebianParts();
    DigitPrefixOf(v, []);
    assert v + [] == v;
    assert v[..|v|] == v;
    assert VersionParts(v) == [LeadingDigitsValue(v)];
    assert [LeadingDigitsValue(v)][1..] == [];
    assert [12][1..] == [];
  }

  /** Every release the codename tables name is a supported release of its distribution. */
  lemma CodenamedReleasesSupported(v: string)
    ensures v in UbuntuCodenames ==> Ubuntu.IsValidVersion(v) && Ubuntu.Codename(v) != "LTS"
    ensures v in DebianCodenames ==> Debian.IsValidVersion(v) && Debian.Codename(v) != "Stable"
  {
    if v in UbuntuCodenames {
      UbuntuCodenamedSupported(v);
    }
    if v in DebianCodenames {
      DebianCodenamedSupported(v);
    }
  }

  lemma UbuntuCodenamedSupported(v: string)
    requires v in UbuntuCodenames
    ensures Ubuntu.IsValidVersion(v)
  {
    assert v == "24.04" || v == "26.04";
    assert Chomp(v) == v;
    UbuntuValidIff(v);
  }

  lemma DebianCodenamedSupported(v: string)
    requires v in DebianCodenames
    ensures Debian.IsValidVersion(v)
  {
    assert v == "12" || v == "13" || v == "14";
    DebianDigitsValidIff(v);
    assert v[1..][1..] == [];
  }

  /** Odd years and non-".04" releases are never supported Ubuntu releases. */
  lemma NonLtsUnsupported(v: string)
    requires |v| == 5 && IsDigit(v[0]) && IsDigit(v[1]) && v[2..] != ".04"
    ensures !Ubuntu.IsValidVersion(v)
  {
  }
}
