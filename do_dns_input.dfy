/**
 * The DigitalOcean commands' input handling: record names pass through unchanged (the
 * provider itself understands "@"), and the validators of the prompted or passed values
 * return None when the value is accepted and the first failing check's reason otherwise.
 */
module DoDnsInput {
  import opened Wrappers
  import opened PhpStrings
  import opened PhpValues
  import opened DnsNames
  import DoDns

  /** The overall length limit of a name, after section 2.3.4 of RFC 1035. */
  const MaxNameLength: nat := 253

  /** The length limit of a label, after section 2.3.4 of RFC 1035. */
  const MaxLabelLength: nat := 63

  const MinTtl: int := 30
  const MaxTtl: int := 86400

  /** The CAA tags of section 4 of RFC 8659. */
  const CaaTags: seq<string> := ["issue", "issuewild", "iodef"]

  /** The numeric inputs, named in their errors. */
  datatype NumberField = TtlField | PriorityField | PortField | WeightField | FlagsField

  datatype DoInputError =
    | DomainNotString
    | DomainEmpty
    | DomainTooLong
    | DomainLabelTooLong
    | DomainInvalid
    | TypeNotString
    | TypeInvalid(normalized: string)
    | NameNotString
    | NameEmpty
    | NameTooLong
    | NameLabelTooLong
    | NameInvalid
    | ValueNotString
    | ValueEmpty
    | NotNumber(field: NumberField)
    | OutOfRange(field: NumberField)
    | TagNotString
    | TagInvalid

  /** DigitalOcean takes "@" for the apex itself, so names are passed through unchanged. */
  function NormalizeDoRecordName(name: string, domain: string): (r: string)
    ensures r == name
    ensures name == "@" ==> r == "@"
  {
    name
  }

  /**
   * A domain is a non-blank string of at most 253 characters whose dot-separated labels
   * have at most 63 characters and which is a sequence of LDH labels.
   */
  function ValidateDomain(domain: Value): (r: Option<DoInputError>)
    ensures r.None? <==> (domain.Str? && !IsBlank(domain.s) && |domain.s| <= MaxNameLength
      && LabelsAtMost(domain.s, MaxLabelLength) && LdhName(Chomp(domain.s)))
    ensures r == Some(DomainTooLong) <==> domain.Str? && !IsBlank(domain.s) && |domain.s| > MaxNameLength
  {
    if !domain.Str? then Some(DomainNotString)
    else
      TrimEmptyIff(domain.s);
      if Trim(domain.s) == "" then Some(DomainEmpty)
      else if |domain.s| > MaxNameLength then Some(DomainTooLong)
      else if !LabelsAtMost(domain.s, MaxLabelLength) then Some(DomainLabelTooLong)
      else if !LdhName(Chomp(domain.s)) then Some(DomainInvalid)
      else None
  }

  /** A record type is accepted when, trimmed and upper-cased, it is A, AAAA or CNAME. */
  function ValidateRecordType(rtype: Value): (r: Option<DoInputError>)
    ensures r.None? <==> rtype.Str? && ToUpper(Trim(rtype.s)) in DoDns.RecordTypes
    ensures r.Some? && rtype.Str? ==> r == Some(TypeInvalid(ToUpper(Trim(rtype.s))))
  {
    if !rtype.Str? then Some(TypeNotString)
    else
      var t := ToUpper(Trim(rtype.s));
      if t !in DoDns.RecordTypes then Some(TypeInvalid(t)) else None
  }

  /** The name whose labels are length-checked: without a leading "*.". */
  function WithoutWildcard(name: string): (r: string)
    ensures StartsWith(name, "*.") ==> name == "*." + r
    ensures !StartsWith(name, "*.") ==> r == name
  {
    if StartsWith(name, "*.") then
      assert name == name[..2] + name[2..];
      name[2..]
    else name
  }

  /** `^(\*\.)?LDH(\.LDH)*$` under the flag `i`: LDH labels after an optional "*.". */
  predicate DoRecordNamePattern(name: string) {
    LdhName(WithoutWildcard(Chomp(name)))
  }

  /**
   * A record name is "@", or a non-blank string of at most 253 characters whose labels,
   * after an optional leading "*.", have at most 63 characters, and which matches the
   * host-name pattern with an optional wildcard label.
   */
  function ValidateRecordName(name: Value): (r: Option<DoInputError>)
    ensures r.None? <==> (name.Str? && !IsBlank(name.s)
      && (name.s == "@"
          || (|name.s| <= MaxNameLength && LabelsAtMost(WithoutWildcard(name.s), MaxLabelLength)
              && DoRecordNamePattern(name.s))))
  {
    if !name.Str? then Some(NameNotString)
    else
      TrimEmptyIff(name.s);
      if Trim(name.s) == "" then Some(NameEmpty)
      else if name.s == "@" then None
      else if |name.s| > MaxNameLength then Some(NameTooLong)
      else if !LabelsAtMost(WithoutWildcard(name.s), MaxLabelLength) then Some(NameLabelTooLong)
      else if !DoRecordNamePattern(name.s) then Some(NameInvalid)
      else None
  }

  /** A record value is any non-blank string. */
  function ValidateRecordValue(value: Value): (r: Option<DoInputError>)
    ensures r.None? <==> value.Str? && !IsBlank(value.s)
    ensures !value.Str? ==> r == Some(ValueNotString)
  {
    if !value.Str? then Some(ValueNotString)
    else
      TrimEmptyIff(value.s);
      if Trim(value.s) == "" then Some(ValueEmpty) else None
  }

  /** An integer, or a numeric string. */
  predicate IsNumber(v: Value) {
    v.Int? || (v.Str? && IsNumericString(v.s))
  }

  /** A TTL is an integer or numeric string whose integer value lies in 30..86400. */
  function ValidateTtl(ttl: Value): (r: Option<DoInputError>)
    ensures r.None? <==> IsNumber(ttl) && MinTtl <= IntOf(ttl) <= MaxTtl
    ensures !IsNumber(ttl) ==> r == Some(NotNumber(TtlField))
  {
    if !ttl.Str? && !ttl.Int? then Some(NotNumber(TtlField))
    else if ttl.Str? && !IsNumericString(ttl.s) then Some(NotNumber(TtlField))
    else
      var n := IntOf(ttl);
      if n < MinTtl || n > MaxTtl then Some(OutOfRange(TtlField)) else None
  }

  /** A digit string in range is accepted. */
  lemma TtlDigitsAccepted(s: string)
    requires IsDigits(s) && MinTtl <= LeadingDigitsValue(s) <= MaxTtl
    ensures ValidateTtl(Str(s)) == None
  {
    DigitsNumeric(s);
    var v := Str(s);
    assert IsNumber(v);
    assert IntOf(v) == LeadingDigitsValue(s);
  }

  /** A unit suffix makes a TTL no number at all ("300s"), where the Route53 validator reads 300. */
  lemma TtlWithUnitRejected(d: string, unit: string)
    requires IsDigits(d) && |unit| > 0 && forall i :: 0 <= i < |unit| ==> IsLetter(unit[i])
    ensures ValidateTtl(Str(d + unit)) == Some(NotNumber(TtlField))
  {
    DigitsThenLettersNotNumeric(d, unit);
  }

  /**
   * The shared shape of the optional numeric inputs: null or "" is accepted; otherwise the
   * value must be an integer or numeric string whose integer value lies in 0..max.
   */
  function ValidateOptionalNumber(field: NumberField, v: Value, max: int): (r: Option<DoInputError>)
    ensures r.None? <==> v == Null || v == Str("") || (IsNumber(v) && 0 <= IntOf(v) <= max)
    ensures r.Some? ==> r == Some(if IsNumber(v) then OutOfRange(field) else NotNumber(field))
  {
    if v == Null || v == Str("") then None
    else if !v.Str? && !v.Int? then Some(NotNumber(field))
    else if v.Str? && !IsNumericString(v.s) then Some(NotNumber(field))
    else
      var n := IntOf(v);
      if n < 0 || n > max then Some(OutOfRange(field)) else None
  }

  /** An MX or SRV priority: optional, otherwise 0..65535. */
  function ValidatePriority(priority: Value): (r: Option<DoInputError>)
    ensures r.None? <==> priority == Null || priority == Str("") || (IsNumber(priority) && 0 <= IntOf(priority) <= 65535)
  {
    ValidateOptionalNumber(PriorityField, priority, 65535)
  }

  /** An SRV port: optional, otherwise 0..65535. */
  function ValidatePort(port: Value): (r: Option<DoInputError>)
    ensures r.None? <==> port == Null || port == Str("") || (IsNumber(port) && 0 <= IntOf(port) <= 65535)
  {
    ValidateOptionalNumber(PortField, port, 65535)
  }

  /** An SRV weight: optional, otherwise 0..65535. */
  function ValidateWeight(weight: Value): (r: Option<DoInputError>)
    ensures r.None? <==> weight == Null || weight == Str("") || (IsNumber(weight) && 0 <= IntOf(weight) <= 65535)
  {
    ValidateOptionalNumber(WeightField, weight, 65535)
  }

  /** CAA flags: optional, otherwise 0..255. */
  function ValidateFlags(flags: Value): (r: Option<DoInputError>)
    ensures r.None? <==> flags == Null || flags == Str("") || (IsNumber(flags) && 0 <= IntOf(flags) <= 255)
  {
    ValidateOptionalNumber(FlagsField, flags, 255)
  }

  /** A CAA tag: optional, otherwise issue, issuewild or iodef in any letter case. */
  function ValidateTag(tag: Value): (r: Option<DoInputError>)
    ensures r.None? <==> tag == Null || tag == Str("") || (tag.Str? && ToLower(tag.s) in CaaTags)
    ensures !(tag.Null? || tag.Str?) ==> r == Some(TagNotString)
  {
    if tag == Null || tag == Str("") then None
    else if !tag.Str? then Some(TagNotString)
    else if ToLower(tag.s) !in CaaTags then Some(TagInvalid)
    else None
  }
}
