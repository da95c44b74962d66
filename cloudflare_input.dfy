/**
 * The Cloudflare commands' input handling: record-name normalisation against the zone and
 * the validators of the prompted or passed values.  A validator returns None when the
 * value is accepted and the reason otherwise; the first failing check gives the reason.
 */
module CloudflareInput {
  import opened Wrappers
  import opened PhpStrings
  import opened PhpValues
  import CloudflareDns

  datatype CfInputError =
    | ZoneNotString
    | ZoneEmpty
    | ZoneInvalid
    | TypeNotString
    | TypeEmpty
    | TypeInvalid
    | NameNotString
    | NameEmpty
    | NameInvalid
    | ValueNotString
    | ValueEmpty
    | TtlNotNumber
    | TtlOutOfRange
    | PriorityNotNumber
    | PriorityOutOfRange

  /** The largest TTL Cloudflare accepts other than the "automatic" TTL 1. */
  const MaxTtl: int := 86400

  /** The smallest explicit TTL. */
  const MinTtl: int := 60

  /** The largest MX priority. */
  const MaxPriority: int := 65535

  //
  // Record names
  // ----

  /**
   * The fully qualified record name for `name` in the zone `zoneName`: "@" is the apex, a
   * name already inside the zone is kept and any other is made relative to the zone.
   * Unlike the Route53 variant, trailing dots are not stripped.
   */
  function NormalizeRecordName(name: string, zoneName: string): (r: string)
    ensures r == zoneName || EndsWith(r, "." + zoneName)
    ensures name == "@" ==> r == zoneName
    ensures name != "@" && (name == zoneName || EndsWith(name, "." + zoneName)) ==> r == name
    ensures name != "@" && name != zoneName && !EndsWith(name, "." + zoneName) ==> r == name + "." + zoneName
  {
    if name == "@" then zoneName
    else if EndsWith(name, "." + zoneName) || name == zoneName then name
    else
      var r := name + "." + zoneName;
      assert r[|r| - |"." + zoneName|..] == "." + zoneName;
      r
  }

  /** Normalising a normalised name changes nothing, whatever the zone. */
  lemma NormalizeRecordNameIdempotent(name: string, zoneName: string)
    ensures NormalizeRecordName(NormalizeRecordName(name, zoneName), zoneName)
         == NormalizeRecordName(name, zoneName)
  {
  }

  //
  // Patterns
  // ----

  /** `^[a-f0-9]{32}$` under the flag `i`, on the chomped input: a 32-character hex string. */
  predicate ZoneIdShape(x: string) {
    |x| == 32 && forall i :: 0 <= i < |x| ==> IsHexDigit(x[i])
  }

  /**
   * `^[a-z0-9][a-z0-9\-\.]+\.[a-z]{2,}$` under the flag `i`, on the chomped input: some dot
   * splits it into a letter or digit followed by at least one letter, digit, "-" or ".",
   * and a top-level part of at least two letters.
   */
  predicate DomainShape(x: string) {
    exists d :: 2 <= d < |x| - 2 && x[d] == '.' && IsAlnum(x[0])
      && (forall i :: 1 <= i < d ==> IsAlnum(x[i]) || x[i] == '-' || x[i] == '.')
      && (forall i :: d < i < |x| ==> IsLetter(x[i]))
  }

  /** `^[a-z0-9][a-z0-9\-\.\_]*$` under the flag `i`, on the chomped input. */
  predicate RecordNameShape(x: string) {
    |x| > 0 && IsAlnum(x[0])
    && forall i :: 1 <= i < |x| ==> IsAlnum(x[i]) || x[i] == '-' || x[i] == '.' || x[i] == '_'
  }

  /** A string whose chomped form starts with a letter or digit is not blank. */
  lemma StartsAlnumNotBlank(s: string)
    requires |Chomp(s)| > 0 && IsAlnum(Chomp(s)[0])
    ensures Trim(s) != ""
  {
    assert s[0] == Chomp(s)[0];
    TrimEmptyIff(s);
  }

  //
  // Validators
  // ----

  /**
   * A zone is a string that is a 32-character hex zone ID or a domain name with a
   * top-level part of two or more letters; both shapes are non-blank, so the emptiness
   * check only chooses the message.
   */
  function ValidateZone(zone: Value): (r: Option<CfInputError>)
    ensures r.None? <==> zone.Str? && (ZoneIdShape(Chomp(zone.s)) || DomainShape(Chomp(zone.s)))
    ensures zone.Str? && r.Some? ==> r == Some(if Trim(zone.s) == "" then ZoneEmpty else ZoneInvalid)
  {
    if !zone.Str? then Some(ZoneNotString)
    else if Trim(zone.s) == "" then
      (if ZoneIdShape(Chomp(zone.s)) then StartsAlnumNotBlank(zone.s); Some(ZoneEmpty)
       else if DomainShape(Chomp(zone.s)) then StartsAlnumNotBlank(zone.s); Some(ZoneEmpty)
       else Some(ZoneEmpty))
    else if !ZoneIdShape(Chomp(zone.s)) && !DomainShape(Chomp(zone.s)) then Some(ZoneInvalid)
    else None
  }

  /**
   * A record type is accepted when its upper-cased form is a supported type.  The input is
   * not trimmed first, so surrounding spaces make it invalid.
   */
  function ValidateRecordType(rtype: Value): (r: Option<CfInputError>)
    ensures r.None? <==> rtype.Str? && ToUpper(rtype.s) in CloudflareDns.RecordTypes
  {
    if !rtype.Str? then Some(TypeNotString)
    else if Trim(rtype.s) == "" then BlankTypeUnknown(rtype.s); Some(TypeEmpty)
    else if ToUpper(rtype.s) !in CloudflareDns.RecordTypes then Some(TypeInvalid)
    else None
  }

  /** No record type is blank, so the emptiness check never hides a valid type. */
  lemma BlankTypeUnknown(t: string)
    requires Trim(t) == ""
    ensures ToUpper(t) !in CloudflareDns.RecordTypes
  {
    TrimEmptyIff(t);
    if |t| > 0 {
      assert IsTrimChar(ToUpper(t)[0]);
      assert forall k :: 0 <= k < |CloudflareDns.RecordTypes| ==> !IsTrimChar(CloudflareDns.RecordTypes[k][0]);
    }
  }

  /** A type with a leading space is rejected, however valid the rest is. */
  lemma RecordTypeNotTrimmed(t: string)
    ensures ValidateRecordType(Str(" " + t)).Some?
  {
    var u := ToUpper(" " + t);
    assert u[0] == ' ';
    assert forall k :: 0 <= k < |CloudflareDns.RecordTypes| ==> CloudflareDns.RecordTypes[k][0] != ' ';
  }

  /** A record name is "@" or a letter or digit followed by letters, digits, "-", "." and "_". */
  function ValidateRecordName(name: Value): (r: Option<CfInputError>)
    ensures r.None? <==> name.Str? && (name.s == "@" || RecordNameShape(Chomp(name.s)))
  {
    if !name.Str? then Some(NameNotString)
    else if Trim(name.s) == "" then
      (if RecordNameShape(Chomp(name.s)) then StartsAlnumNotBlank(name.s); Some(NameEmpty)
       else Some(NameEmpty))
    else if name.s != "@" && !RecordNameShape(Chomp(name.s)) then Some(NameInvalid)
    else None
  }

  /** A record value is any non-blank string. */
  function ValidateRecordValue(value: Value): (r: Option<CfInputError>)
    ensures r.None? <==> value.Str? && !IsBlank(value.s)
    ensures !value.Str? ==> r == Some(ValueNotString)
  {
    if !value.Str? then Some(ValueNotString)
    else
      TrimEmptyIff(value.s);
      if Trim(value.s) == "" then Some(ValueEmpty) else None
  }

  /** A TTL is a string or integer whose integer value is 1 (automatic) or lies in 60..86400. */
  function ValidateTtl(ttl: Value): (r: Option<CfInputError>)
    ensures r.None? <==> (ttl.Int? || ttl.Str?) && (IntOf(ttl) == 1 || MinTtl <= IntOf(ttl) <= MaxTtl)
    ensures !(ttl.Int? || ttl.Str?) ==> r == Some(TtlNotNumber)
  {
    if !ttl.Str? && !ttl.Int? then Some(TtlNotNumber)
    else
      var n := IntOf(ttl);
      if n != 1 && (MinTtl > n || MaxTtl < n) then Some(TtlOutOfRange) else None
  }

  /** TTLs 2 to 59 are rejected: only the automatic TTL lies below a minute. */
  lemma TtlGap(n: int)
    requires 2 <= n < MinTtl
    ensures ValidateTtl(Int(n)) == Some(TtlOutOfRange)
  {
  }

  /** A priority is optional (null or ""), otherwise a string or integer whose value lies in 0..65535. */
  function ValidatePriority(priority: Value): (r: Option<CfInputError>)
    ensures r.None? <==> (priority == Null || priority == Str("")
      || ((priority.Int? || priority.Str?) && 0 <= IntOf(priority) <= MaxPriority))
    ensures !(priority.Null? || priority.Int? || priority.Str?) ==> r == Some(PriorityNotNumber)
  {
    if priority == Null || priority == Str("") then None
    else if !priority.Str? && !priority.Int? then Some(PriorityNotNumber)
    else
      var n := IntOf(priority);
      if 0 > n || MaxPriority < n then Some(PriorityOutOfRange) else None
  }
}
