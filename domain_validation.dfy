/**
 * The provider-independent domain and record-name checks.  Both trim their input first and
 * report the first failing check.  PHP's host-name filter (FILTER_VALIDATE_DOMAIN with
 * FILTER_FLAG_HOSTNAME) is modelled as the LDH syntax of section 2.3.1 of RFC 1035.
 */
module DomainValidation {
  import opened Wrappers
  import opened PhpStrings
  import opened PhpValues
  import opened DnsNames
  import AwsDnsInput
  import CloudflareInput
  import DoDnsInput

  const MaxNameLength: nat := 253
  const MaxLabelLength: nat := 63

  datatype FormatError =
    | DomainNotString
    | DomainEmpty
    | DomainTrailingDot
    | DomainWithoutTld
    | DomainTooLong
    | DomainLabelTooLong
    | DomainInvalid
    | NameNotString
    | NameEmpty
    | NameTooLong
    | NameLabelTooLong
    | NameInvalid

  /** The host-name filter: LDH labels separated by single dots. */
  predicate HostnameFilter(d: string) {
    LdhName(d)
  }

  /**
   * A domain is accepted when, trimmed, it is non-empty, does not end with a dot, contains a
   * dot, has at most 253 characters and labels of at most 63, and passes the host-name filter.
   */
  function ValidateDomainFormat(domain: Value): (r: Option<FormatError>)
    ensures r.None? <==> (domain.Str? && Trim(domain.s) != "" && !EndsWith(Trim(domain.s), ".")
      && '.' in Trim(domain.s) && |Trim(domain.s)| <= MaxNameLength
      && LabelsAtMost(Trim(domain.s), MaxLabelLength) && HostnameFilter(Trim(domain.s)))
    ensures domain.Str? && Trim(domain.s) != "" && EndsWith(Trim(domain.s), ".") ==> r == Some(DomainTrailingDot)
    ensures domain.Str? && Trim(domain.s) != "" && !EndsWith(Trim(domain.s), ".") && '.' !in Trim(domain.s) ==>
      r == Some(DomainWithoutTld)
  {
    if !domain.Str? then Some(DomainNotString)
    else
      var d := Trim(domain.s);
      if d == "" then Some(DomainEmpty)
      else if EndsWith(d, ".") then Some(DomainTrailingDot)
      else if '.' !in d then Some(DomainWithoutTld)
      else if |d| > MaxNameLength then Some(DomainTooLong)
      else if !LabelsAtMost(d, MaxLabelLength) then Some(DomainLabelTooLong)
      else if !HostnameFilter(d) then Some(DomainInvalid)
      else None
  }

  /** An accepted domain has at least two labels, each an LDH label. */
  lemma AcceptedDomainLabels(domain: string)
    requires ValidateDomainFormat(Str(domain)) == None
    ensures |Split(Trim(domain), '.')| >= 2
    ensures forall k :: 0 <= k < |Split(Trim(domain), '.')| ==> LdhLabel(Split(Trim(domain), '.')[k])
  {
    var d := Trim(domain);
    var i := IndexOf(d, '.');
    assert Split(d, '.') == [d[..i]] + Split(d[i + 1..], '.');
  }

  /**
   * A record name is accepted when, trimmed, it is "@", or it has at most 253 characters and
   * labels of at most 63 and is a sequence of LDH labels.
   */
  function ValidateRecordNameFormat(name: Value): (r: Option<FormatError>)
    ensures r.None? <==> (name.Str? && Trim(name.s) != ""
      && (Trim(name.s) == "@"
          || (|Trim(name.s)| <= MaxNameLength && LabelsAtMost(Trim(name.s), MaxLabelLength)
              && LdhName(Trim(name.s)))))
    ensures name.Str? && Trim(name.s) != "@" && |Trim(name.s)| > MaxNameLength ==> r == Some(NameTooLong)
  {
    if !name.Str? then Some(NameNotString)
    else
      var n := Trim(name.s);
      if n == "" then Some(NameEmpty)
      else if n == "@" then None
      else if |n| > MaxNameLength then Some(NameTooLong)
      else if !LabelsAtMost(n, MaxLabelLength) then Some(NameLabelTooLong)
      else if !LdhName(n) then Some(NameInvalid)
      else None
  }

  /** An accepted name other than "@" holds no "*", no "_" and no trailing dot. */
  lemma AcceptedRecordNameChars(name: string)
    requires ValidateRecordNameFormat(Str(name)) == None && Trim(name) != "@"
    ensures '*' !in Trim(name) && '_' !in Trim(name) && !EndsWith(Trim(name), ".")
  {
    LdhNameShape(Trim(name));
  }

  /**
   * The shared record-name check is the strictest common subset of the providers': an
   * unpadded name it accepts is accepted by the Route53, Cloudflare and DigitalOcean checks.
   */
  lemma CommonRecordNameAcceptedEverywhere(name: string)
    requires ValidateRecordNameFormat(Str(name)) == None && Trim(name) == name
    ensures AwsDnsInput.ValidateAwsRecordName(Str(name)) == None
    ensures CloudflareInput.ValidateRecordName(Str(name)) == None
    ensures DoDnsInput.ValidateRecordName(Str(name)) == None
  {
    TrimEmptyIff(name);
    if name != "@" {
      LdhNameShape(name);
      LdhNameChars(name);
      assert Chomp(name) == name;
      assert !StartsWith(name, "*.");
      assert !EndsWith(name, ".");
      assert AwsDnsInput.AwsRecordNamePattern(name);
      assert CloudflareInput.RecordNameShape(name);
      assert DoDnsInput.WithoutWildcard(name) == name;
    }
  }

  /** An unpadded domain the shared check accepts is accepted by the DigitalOcean domain check. */
  lemma CommonDomainAcceptedByDo(domain: string)
    requires ValidateDomainFormat(Str(domain)) == None && Trim(domain) == domain
    ensures DoDnsInput.ValidateDomain(Str(domain)) == None
  {
    TrimEmptyIff(domain);
    LdhNameShape(domain);
    assert Chomp(domain) == domain;
  }
}
