/**
 * Display helpers shared by the DNS commands: the placeholder and hint shown when a record
 * value is prompted for, and the truncation of long values in record listings.
 */
module DnsCommand {
  import opened PhpStrings

  const DefaultMaxLength: int := 60

  /** The prompt's placeholder for a record value of the given type. */
  function ValuePlaceholder(recordType: string): (r: string)
    ensures r != "" <==> recordType in {"A", "AAAA", "CNAME"}
    ensures recordType == "CNAME" ==> EndsWith(r, ".example.com")
  {
    match recordType
    case "A" => "192.0.2.1"
    case "AAAA" => "2001:db8::1"
    case "CNAME" => "target.example.com"
    case _ => ""
  }

  /** The prompt's hint for a record value of the given type. */
  function ValueHint(recordType: string): (r: string)
    ensures r == "Record value" <==> recordType !in {"A", "AAAA", "CNAME"}
    ensures r != ""
  {
    match recordType
    case "A" => "IPv4 address"
    case "AAAA" => "IPv6 address"
    case "CNAME" => "Target hostname"
    case _ => "Record value"
  }

  /**
   * substr($s, 0, $length): a non-negative length takes at most that many characters; a
   * negative one drops that many from the end, leaving nothing when it drops them all.
   */
  function Prefix(s: string, length: int): (r: string)
    ensures |r| <= |s| && r == s[..|r|]
    ensures length >= 0 ==> |r| == if length <= |s| then length else |s|
    ensures length < 0 ==> |r| == if |s| + length > 0 then |s| + length else 0
  {
    if length >= 0 then (if length <= |s| then s[..length] else s)
    else if |s| + length > 0 then s[..|s| + length]
    else ""
  }

  /** truncateValue: a value longer than `maxLength` is cut and ends with "...". */
  function TruncateValue(value: string, maxLength: int): (r: string)
    ensures |value| <= maxLength ==> r == value
    ensures |value| > maxLength ==> EndsWith(r, "...") && r[..|r| - 3] == Prefix(value, maxLength - 3)
  {
    if |value| > maxLength then Prefix(value, maxLength - 3) + "..." else value
  }

  /**
   * For a limit of at least 3 (the listings use 60), a long value becomes exactly
   * `maxLength` characters: its first `maxLength - 3` and "...".
   */
  lemma TruncatedLength(value: string, maxLength: int)
    requires maxLength >= 3 && |value| > maxLength
    ensures |TruncateValue(value, maxLength)| == maxLength
    ensures TruncateValue(value, maxLength) == value[..maxLength - 3] + "..."
  {
  }

  /** No value shown in a listing is longer than 60 characters, and short values are shown whole. */
  lemma ListedValueFits(value: string)
    ensures |TruncateValue(value, DefaultMaxLength)| <= DefaultMaxLength
    ensures |value| <= DefaultMaxLength <==> TruncateValue(value, DefaultMaxLength) == value
  {
    if |value| > DefaultMaxLength {
      TruncatedLength(value, DefaultMaxLength);
    }
  }
}
