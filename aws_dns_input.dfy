/**
 * The Route53 commands' input handling: record-name normalisation against the hosted zone
 * and the validators of the prompted or passed values.  A validator returns None when the
 * value is accepted and the reason otherwise.
 */
module AwsDnsInput {
  import opened Wrappers
  import opened PhpStrings
  import opened PhpValues
  import opened DnsNames
  import Route53Dns

  /** The largest TTL the validator accepts: the largest signed 32-bit integer. */
  const MaxTtl: int := 2147483647

  datatype AwsInputError =
    | ZoneNotString
    | ZoneEmpty
    | TypeNotString
    | TypeInvalid(normalized: string)
    | NameNotString
    | NameEmpty
    | NameInvalid
    | ValueNotString
    | ValueEmpty
    | TtlNotNumber
    | TtlOutOfRange

  //
  // Record names
  // ----

  /**
   * The fully qualified record name (without trailing dot) for `name` in the zone `zoneName`:
   * "@" is the apex, a name already inside the zone is kept and any other is made relative
   * to the zone.
   */
  function NormalizeAwsRecordName(name: string, zoneName: string): (r: string)
    ensures r == zoneName || EndsWith(r, "." + zoneName)
    ensures RTrimChar(name, '.') == "@" ==> r == zoneName
    ensures var n := RTrimChar(name, '.');
      n != "@" && (n == zoneName || EndsWith(n, "." + zoneName)) ==> r == n
  {
    var n := RTrimChar(name, '.');
    if n == "@" then zoneName
    else if n == zoneName || EndsWith(n, "." + zoneName) then n
    else
      var r := n + "." + zoneName;
      assert r[|r| - |"." + zoneName|..] == "." + zoneName;
      r
  }

  /** A relative name is placed under the zone. */
  lemma NormalizeRelativeName(name: string, zoneName: string)
    requires RTrimChar(name, '.') != "@" && RTrimChar(name, '.') != zoneName
    requires !EndsWith(RTrimChar(name, '.'), "." + zoneName)
    ensures NormalizeAwsRecordName(name, zoneName) == RTrimChar(name, '.') + "." + zoneName
  {
  }

  /** A zone name: non-empty, no trailing dot, not the apex marker itself. */
  predicate ZoneName(z: string) {
    |z| > 0 && z[|z| - 1] != '.' && z != "@"
  }

  /** Normalising a normalised name changes nothing. */
  lemma NormalizeAwsRecordNameIdempotent(name: string, zoneName: string)
    requires ZoneName(zoneName)
    ensures NormalizeAwsRecordName(NormalizeAwsRecordName(name, zoneName), zoneName)
         == NormalizeAwsRecordName(name, zoneName)
  {
    var r := NormalizeAwsRecordName(name, zoneName);
    var n := RTrimChar(name, '.');
    assert r[|r| - 1] == zoneName[|zoneName| - 1] by {
      if r != zoneName {
        assert r[|r| - |"." + zoneName|..] == "." + zoneName;
        assert ("." + zoneName)[|zoneName|] == zoneName[|zoneName| - 1];
      }
    }
    assert RTrimChar(r, '.') == r;
    assert r != "@" by {
      if r != zoneName { assert |r| >= |zoneName| + 1; }
    }
  }

  //
  // Validators
  // ----

  /** A hosted zone is any non-blank string. */
  function ValidateAwsHostedZone(zone: Value): (r: Option<AwsInputError>)
    ensures r.None? <==> zone.Str? && Trim(zone.s) != ""
    ensures !zone.Str? ==> r == Some(ZoneNotString)
  {
    if !zone.Str? then Some(ZoneNotString)
    else if Trim(zone.s) == "" then Some(ZoneEmpty)
    else None
  }

  /** A record type is accepted when, trimmed and upper-cased, it is one of the supported types. */
  function ValidateAwsRecordType(rtype: Value): (r: Option<AwsInputError>)
    ensures r.None? <==> rtype.Str? && ToUpper(Trim(rtype.s)) in Route53Dns.RecordTypes
    ensures r.Some? && rtype.Str? ==> r == Some(TypeInvalid(ToUpper(Trim(rtype.s))))
  {
    if !rtype.Str? then Some(TypeNotString)
    else
      var t := ToUpper(Trim(rtype.s));
      if t !in Route53Dns.RecordTypes then Some(TypeInvalid(t)) else None
  }

  /**
   * `^(\*\.)?LDH(\.LDH)*\.?$` under the flag `i`: an optional wildcard label, host labels
   * and an optional trailing dot.  Both optional parts are forced: a label cannot start with
   * "*" or end with ".".
   */
  predicate AwsRecordNamePattern(name: string) {
    var t := Chomp(name);
    var u := if StartsWith(t, "*.") then t[2..] else t;
    var w := if EndsWith(u, ".") then u[..|u| - 1] else u;
    LdhName(w)
  }

  /** A record name is "@" exactly, or a host name with an optional wildcard and trailing dot. */
  function ValidateAwsRecordName(name: Value): (r: Option<AwsInputError>)
    ensures r.None? <==> name.Str? && Trim(name.s) != "" && (name.s == "@" || AwsRecordNamePattern(name.s))
  {
    if !name.Str? then Some(NameNotString)
    else if Trim(name.s) == "" then Some(NameEmpty)
    else if name.s == "@" then None
    else if !AwsRecordNamePattern(name.s) then Some(NameInvalid)
    else None
  }

  /** Letters, digits, "-" and "." only. */
  predicate HostChars(u: string) {
    forall i :: 0 <= i < |u| ==> IsAlnum(u[i]) || u[i] == '-' || u[i] == '.'
  }

  lemma HostCharsWithDot(w: string, u: string)
    requires LdhName(w) && (u == w || u == w + ".")
    ensures HostChars(u)
  {
    LdhNameShape(w);
    if u != w {
      forall i | 0 <= i < |u| ensures IsAlnum(u[i]) || u[i] == '-' || u[i] == '.' {
        if i < |w| { assert u[i] == w[i]; }
      }
    }
  }

  /** A name the pattern accepts is a host name with at most a leading "*." and a trailing ".". */
  lemma AcceptedAwsRecordNameChars(name: string)
    requires AwsRecordNamePattern(name)
    ensures var t := Chomp(name);
      HostChars(t) || (StartsWith(t, "*.") && HostChars(t[2..]))
  {
    var t := Chomp(name);
    assert AwsRecordNamePattern(name);
    var u := if StartsWith(t, "*.") then t[2..] else t;
    if EndsWith(u, ".") {
      var w := u[..|u| - 1];
      assert u == w + ".";
      HostCharsWithDot(w, u);
    } else {
      HostCharsWithDot(u, u);
    }
  }

  /** A record value is any non-blank string. */
  function ValidateAwsRecordValue(value: Value): (r: Option<AwsInputError>)
    ensures r.None? <==> value.Str? && Trim(value.s) != ""
    ensures !value.Str? ==> r == Some(ValueNotString)
  {
    if !value.Str? then Some(ValueNotString)
    else if Trim(value.s) == "" then Some(ValueEmpty)
    else None
  }

  /** A TTL is a string or integer whose integer value lies between 1 and 2147483647. */
  function ValidateAwsTtl(ttl: Value): (r: Option<AwsInputError>)
    ensures r.None? <==> (ttl.Int? || ttl.Str?) && 1 <= IntOf(ttl) <= MaxTtl
    ensures !(ttl.Int? || ttl.Str?) ==> r == Some(TtlNotNumber)
  {
    if !ttl.Str? && !ttl.Int? then Some(TtlNotNumber)
    else
      var n := IntOf(ttl);
      if n < 1 || n > MaxTtl then Some(TtlOutOfRange) else None
  }

  /** A string TTL is read like PHP's (int) cast: "300s" is accepted as 300 and "abc" is rejected as 0. */
  lemma TtlStringPrefix(digits: string, suffix: string)
    requires IsDigits(digits) && (|suffix| == 0 || !IsDigit(suffix[0]))
    requires |digits| > 0 && !IsNumericSpace(digits[0])
    ensures IntOf(Str(digits + suffix)) == LeadingDigitsValue(digits)
  {
    var s := digits + suffix;
    assert s[0] == digits[0];
    assert SkipNumericSpace(s) == s;
    assert IntCast(s) == LeadingDigitsValue(s);
    LeadingDigitsConcat(digits, suffix, 0);
  }

  lemma {:induction false} LeadingDigitsConcat(digits: string, suffix: string, acc: nat)
    requires forall i :: 0 <= i < |digits| ==> IsDigit(digits[i])
    requires |suffix| == 0 || !IsDigit(suffix[0])
    ensures LeadingDigitsValueAcc(digits + suffix, acc) == LeadingDigitsValueAcc(digits, acc)
    decreases |digits|
  {
    if |digits| > 0 {
      assert (digits + suffix)[1..] == digits[1..] + suffix;
      LeadingDigitsConcat(digits[1..], suffix, 10 * acc + DigitValue(digits[0]));
    } else {
      assert digits + suffix == suffix;
    }
  }
}
