# deployer: a Dafny model of the DNS layer, the site inventory and the install and deploy decisions

deployer is a command-line tool that provisions servers, installs PHP stacks, deploys sites and
manages DNS records on AWS Route53, Cloudflare and DigitalOcean. This project models the parts of
it that compute rather than prompt, print or talk over SSH:

- **DNS input handling** (`aws_dns_input.dfy`, `cloudflare_input.dfy`, `do_dns_input.dfy`,
  `domain_validation.dfy`, `dns_names.dfy`). This covers the validators of zones, record types,
  names, values, TTLs and the numeric and CAA options of each provider, and the shared domain
  and record-name checks. It also covers record-name normalisation against a zone. PHP's
  `is_numeric`, `(int)`, `trim`, `strtoupper` and the anchored regular expressions are written
  out in `php_strings.dfy`.
- **DNS record services** (`route53_dns.dfy`, `cloudflare_dns.dfy`, `do_dns.dfy`):
  - the Route53 value formatters for TXT, MX, SRV, CAA and FQDN values, proved idempotent and
    loss-free where the code makes them so;
  - listing, finding and deleting records;
  - the upsert `setRecord`, with "find after set" and "no duplicate (type, name)" proved.

  Each provider's zone is a class holding the provider's records and an ID counter. The
  service operations are methods on that class.
- **Zone and domain resolvers** (`route53_zones.dfy`, `cf_zones.dfy`, `do_domains.dfy`). Each
  is a class holding the process-local cache and a count of API requests. The model proves
  that an ID-shaped input and a cached zone are answered without an extra request.
- **Inventory** (`dtos.dfy`, `builders.dfy`, `site_repository.dfy`):
  - the DTO builders, as classes with setters and `build` checks, and their `fromStorage`
    hydration;
  - the site repository over an ordered PHP array of stored entries.

  Storing a valid site and reading it back gives it back. Every change keeps the stored
  domains unique, and each change is found again afterwards.
- **Commands' pure parts**:
  - the `Distribution` enum's version checks (`distribution.dfy`);
  - shared-file path normalisation (`shared_path.dfy`);
  - the deploy command's `--keep-releases` option, hook status table and repository and branch
    resolution (`deploy.dfy`);
  - the install command's PHP version and extension choices (`server_install.dfy`);
  - DNS listing truncation and hints (`dns_command.dfy`);
  - log error highlighting (`log_highlight.dfy`);
  - command discovery (`command_discovery.dfy`).
- **Sorting** (`sorting.dfy`). An insertion sort under a total preorder stands for PHP's
  `rsort(SORT_NATURAL)` and `sort()`.

Errors that the code throws as exceptions or reports as message strings appear here as
`Result`/`Option` values. Each message is one error constructor.

Some provider behaviour, as the code has it:

- DigitalOcean supports only A, AAAA and CNAME (`app/Services/Do/DoDnsService.php:17`).
- Cloudflare sends TXT content as given, without adding quotes.
- Cloudflare reads only the first page of records (100) and of zones (50); it does not
  follow pagination. Only the Route53 record listing follows continuation cursors.
- DigitalOcean's `findRecord` scans the records listed for the type, looking for the exact name.

## Model

| member | source | states |
|---|---|---|
| DnsNames.LdhNameShape | app/Traits/AwsDnsTrait.php:136 | a name made of LDH labels separated by single dots is non-empty, neither starts nor ends with a dot, and holds only letters, digits, "-" and "." |
| DnsNames.LdhNameChars | app/Traits/AwsDnsTrait.php:136 | a name made of LDH labels starts and ends with a letter or digit and holds only letters, digits, "-" and "." |
| AwsDnsInput.NormalizeAwsRecordName | app/Traits/AwsDnsTrait.php:50-67 | the result is the zone or ends with "." + zone; "@" (also with trailing dots) gives the zone; a name that already is the zone or ends with "." + zone is returned as it is, without its trailing dots |
| AwsDnsInput.NormalizeRelativeName | app/Traits/AwsDnsTrait.php:61-66 | a name that is neither "@", the zone, nor inside the zone becomes the name without trailing dots + "." + zone |
| AwsDnsInput.NormalizeAwsRecordNameIdempotent | app/Traits/AwsDnsTrait.php:50-67 | for a non-empty zone without trailing dot, normalising twice is normalising once |
| AwsDnsInput.ValidateAwsHostedZone | app/Traits/AwsDnsTrait.php:78-89 | accepted exactly when the input is a string that is not blank after trimming; a non-string gives the not-a-string error |
| AwsDnsInput.ValidateAwsRecordType | app/Traits/AwsDnsTrait.php:96-113 | accepted exactly when the input is a string whose trimmed, upper-cased form is one of the Route53 record types; a rejected string reports that upper-cased form |
| AwsDnsInput.ValidateAwsRecordName | app/Traits/AwsDnsTrait.php:120-141 | accepted exactly when the input is a non-blank string that is "@" or matches the optional-wildcard host pattern with an optional trailing dot |
| AwsDnsInput.AcceptedAwsRecordNameChars | app/Traits/AwsDnsTrait.php:136 | an accepted name holds only letters, digits, "-" and ".", apart from an optional leading "*." |
| AwsDnsInput.ValidateAwsRecordValue | app/Traits/AwsDnsTrait.php:148-159 | accepted exactly when the input is a string that is not blank after trimming |
| AwsDnsInput.ValidateAwsTtl | app/Traits/AwsDnsTrait.php:166-180 | accepted exactly when the input is an integer or a string whose integer value lies in 1..2147483647; anything else is not a number |
| AwsDnsInput.TtlStringPrefix | app/Traits/AwsDnsTrait.php:172 | a string TTL of digits followed by a non-digit suffix is read as the value of its digits, so "300s" counts as 300 |
| AwsDnsInput.LeadingDigitsConcat | app/Traits/AwsDnsTrait.php:172 | the integer cast stops at the first non-digit: a non-digit suffix does not change the value |
| Route53Dns.EnsureTrailingDot | app/Services/Aws/AwsRoute53DnsService.php:288-291 | the result ends with "."; it equals the name exactly when the name already ends with "."; otherwise it is the name plus one "." |
| Route53Dns.EnsureTrailingDotIdempotent | app/Services/Aws/AwsRoute53DnsService.php:288-291 | qualifying a qualified name changes nothing |
| Route53Dns.StripQualified | app/Services/Aws/AwsRoute53DnsService.php:288-291 | stripping the trailing dots of a qualified name gives the name's own stripped form, so listed names do not depend on whether the caller qualified them |
| Route53Dns.QualifyStripped | app/Services/Aws/AwsRoute53DnsService.php:288-291 | a name with exactly one trailing dot is restored by qualifying its stripped form |
| Route53Dns.FormatTxt | app/Services/Aws/AwsRoute53DnsService.php:313-324 | the result is quoted; a value that already starts and ends with a quote is kept; any other value becomes a quote, the value with every quote escaped, and a quote |
| Route53Dns.UnescapeEscape | app/Services/Aws/AwsRoute53DnsService.php:321-323 | escaping quotes loses nothing: unescaping gives the value back |
| Route53Dns.TxtRoundTrip | app/Services/Aws/AwsRoute53DnsService.php:313-324 | the text of a formatted unquoted TXT value, unwrapped and unescaped, is the original value |
| Route53Dns.FormatTxtIdempotent | app/Services/Aws/AwsRoute53DnsService.php:313-324 | formatting a TXT value twice is formatting it once |
| Route53Dns.DotLine | app/Services/Aws/AwsRoute53DnsService.php:332 | the `(.+)$` capture is non-empty, holds no line feed, and is the whole rest or the rest without one final line feed |
| Route53Dns.SpaceThenLineNoNewline | app/Services/Aws/AwsRoute53DnsService.php:332 | on one line ending in a non-space, `\s+(.+)$` captures everything after the leading whitespace run |
| Route53Dns.DigitsThenLineOf | app/Services/Aws/AwsRoute53DnsService.php:332 | "digits, whitespace, host" is read by `^(\d+)\s+(.+)$` into exactly those digits and that host |
| Route53Dns.DigitsThenLinePlain | app/Services/Aws/AwsRoute53DnsService.php:332 | on a one-line value without trailing whitespace, the captured host is non-empty, one line and does not start with a space |
| Route53Dns.FormatMx | app/Services/Aws/AwsRoute53DnsService.php:329-338 | the result is a non-empty priority of digits, one space and a host ending in "." |
| Route53Dns.FormatMxWithPriority | app/Services/Aws/AwsRoute53DnsService.php:332-334 | "digits whitespace host" becomes "digits host." with a single space |
| Route53Dns.FormatMxBareHost | app/Services/Aws/AwsRoute53DnsService.php:337 | a value without whitespace gets the default priority: "10 host." |
| Route53Dns.FormatMxFormatted | app/Services/Aws/AwsRoute53DnsService.php:329-338 | an already formatted "priority host." is unchanged |
| Route53Dns.FormatMxIdempotent | app/Services/Aws/AwsRoute53DnsService.php:329-338 | formatting an MX value twice is formatting it once, for one-line values without leading or trailing whitespace |
| Route53Dns.MxMatchTwoTrailingSpaces | app/Services/Aws/AwsRoute53DnsService.php:332 | "digits" followed by two whitespace characters is read as those digits and a host of one whitespace character |
| Route53Dns.FormatMxTrailingSpaceNotIdempotent | app/Services/Aws/AwsRoute53DnsService.php:329-338 | for "digits" plus two trailing whitespace characters, a second formatting pass gives a different value, so the side condition of FormatMxIdempotent is needed |
| Route53Dns.FormatSrv | app/Services/Aws/AwsRoute53DnsService.php:343-351 | a value that is not four fields is unchanged; a four-field value comes out ending in "." |
| Route53Dns.SrvMatchOf | app/Services/Aws/AwsRoute53DnsService.php:346 | "priority weight port target" with any whitespace runs is read into exactly those four fields |
| Route53Dns.FormatSrvFourFields | app/Services/Aws/AwsRoute53DnsService.php:346-348 | a four-field value becomes its three numbers and its qualified target, separated by single spaces |
| Route53Dns.FormatSrvOtherShape | app/Services/Aws/AwsRoute53DnsService.php:350 | a value not starting with a digit is kept |
| Route53Dns.SrvMatchParts | app/Services/Aws/AwsRoute53DnsService.php:346 | the fields read from a one-line value are three digit runs and a plain target |
| Route53Dns.FormatSrvIdempotent | app/Services/Aws/AwsRoute53DnsService.php:343-351 | formatting an SRV value twice is formatting it once, for one-line values without trailing whitespace |
| Route53Dns.SrvFieldsFixed | app/Services/Aws/AwsRoute53DnsService.php:343-351 | four single-spaced fields with a qualified target are kept |
| Route53Dns.FormatCaa | app/Services/Aws/AwsRoute53DnsService.php:356-370 | a complete `flags tag "value"` entry is kept; a value without spaces that is not complete becomes `0 issue "<value>"`; a value with a space is kept |
| Route53Dns.CaaIssueComplete | app/Services/Aws/AwsRoute53DnsService.php:365-367 | the synthesized `0 issue "<domain>"` entry matches the complete-CAA pattern itself |
| Route53Dns.IssueTagQuoted | app/Services/Aws/AwsRoute53DnsService.php:360 | `issue "<domain>"` is the issue tag, whitespace and a quoted line |
| Route53Dns.FormatCaaBareDomain | app/Services/Aws/AwsRoute53DnsService.php:365-367 | a non-empty one-line domain without spaces is formatted into a complete CAA entry |
| Route53Dns.FormatCaaIdempotent | app/Services/Aws/AwsRoute53DnsService.php:356-370 | formatting a CAA value twice is formatting it once |
| Route53Dns.FormatRecordValue | app/Services/Aws/AwsRoute53DnsService.php:298-308 | CNAME, NS and PTR values are qualified; A, AAAA and any type without a rule pass through unchanged |
| Route53Dns.FormatRecordValueIdempotent | app/Services/Aws/AwsRoute53DnsService.php:298-308 | formatting a value twice is formatting it once for every type, with MX and SRV values on one line and without surrounding whitespace |
| Route53Dns.EntriesOfShape | app/Services/Aws/AwsRoute53DnsService.php:51-89 | a set that is filtered out or is SOA gives no entry; a shown alias set gives exactly one entry with TTL 0 and value "ALIAS: " + target; a shown standard set gives one entry per resource record, in order, with the set's TTL or 300; names lose their trailing dots |
| Route53Dns.StrippedHasNoTrailingDot | app/Services/Aws/AwsRoute53DnsService.php:74 | a name with its trailing dots stripped does not end with "." |
| Route53Dns.ListedOfShape | app/Services/Aws/AwsRoute53DnsService.php:57-94 | no listed entry is SOA, every entry has the filtered type when a filter is given, and no entry's name ends with "." |
| Route53Dns.ListedOfAppend | app/Services/Aws/AwsRoute53DnsService.php:51-90 | the listing of two runs of sets is the listing of the first followed by that of the second |
| Route53Dns.AliasListedOnce | app/Services/Aws/AwsRoute53DnsService.php:67-80 | wherever a shown alias set sits, it contributes exactly one entry with TTL 0 between the entries of the sets around it |
| Route53Dns.HostedZone.ListRecords | app/Services/Aws/AwsRoute53DnsService.php:29-109 | fetching the pages until one is not truncated and appending every shown set's entries gives exactly the listing of all the zone's sets |
| Route53Dns.AppendPage | app/Services/Aws/AwsRoute53DnsService.php:51-90 | the loop over one page appends exactly that page's listing |
| Route53Dns.AppendSetEntries | app/Services/Aws/AwsRoute53DnsService.php:52-89 | one iteration appends exactly the entries of its set |
| Route53Dns.AppendValueEntries | app/Services/Aws/AwsRoute53DnsService.php:82-89 | the inner loop appends exactly the entries of a shown standard set |
| Route53Dns.FindInExact | app/Services/Aws/AwsRoute53DnsService.php:137-176 | the search reports something exactly when some returned set has the type and the qualified name and an alias or a value; what it reports has that type and the name without trailing dots |
| Route53Dns.FindRecord | app/Services/Aws/AwsRoute53DnsService.php:120-182 | the loop over the returned sets gives the search over them for the qualified name |
| Route53Dns.UpsertChange | app/Services/Aws/AwsRoute53DnsService.php:199-236 | setRecord sends an UPSERT of the qualified name, no alias, and the single formatted value |
| Route53Dns.DeleteChange | app/Services/Aws/AwsRoute53DnsService.php:247-279 | deleteRecord sends a DELETE of the qualified name with the value exactly as given |
| Route53Dns.ApplyUpsert | app/Services/Aws/AwsRoute53DnsService.php:213-230 | after an UPSERT the zone holds the written set; every other set is one the zone held at the same position under another name or type, and every set under another name or type keeps its position |
| Route53Dns.FindInOnly | app/Services/Aws/AwsRoute53DnsService.php:137-176 | when exactly one set answers a type and a name, the search reports that set's entry |
| Route53Dns.FindInSame | app/Services/Aws/AwsRoute53DnsService.php:137-176 | two lists of sets that agree on every set answering a type and a name give the same search result |
| Route53Dns.UpsertThenFind | app/Services/Aws/AwsRoute53DnsService.php:120-236 | after the UPSERT is applied to any zone, searching for the type and the qualified name finds the written entry: the name without trailing dots, the formatted value and the TTL |
| Route53Dns.UpsertKeepsOthers | app/Services/Aws/AwsRoute53DnsService.php:120-236 | an UPSERT leaves the search for any other type or name as it was |
| Route53Dns.HostedZone.SetRecord | app/Services/Aws/AwsRoute53DnsService.php:199-236 | the zone's sets become those of the UPSERT applied to them, and the written entry is found again under its type and qualified name |
| Route53Dns.DeleteListed | app/Services/Aws/AwsRoute53DnsService.php:247-279 | deleting a listed standard entry sends back exactly the set's name, type, TTL and that one value |
| Route53Zones.CleanZoneId | app/Services/Aws/AwsRoute53ZoneService.php:160-163 | an ID starting with "/hostedzone/" loses exactly that prefix; any other ID is unchanged |
| Route53Zones.CleanZoneIdOfZoneId | app/Services/Aws/AwsRoute53ZoneService.php:148-163 | an input that looks like a zone ID is unchanged by a second cleaning |
| Route53Zones.ZoneOptionsShape | app/Services/Aws/AwsRoute53ZoneService.php:37-48 | every listed zone appears under its cleaned ID, and every entry is the name, without trailing dots, of a zone with that cleaned ID |
| Route53Zones.ZoneOptionsKeys | app/Services/Aws/AwsRoute53ZoneService.php:37-48 | every listed zone's cleaned ID is a key of the options |
| Route53Zones.ZoneOptionsValues | app/Services/Aws/AwsRoute53ZoneService.php:37-48 | every key of the options is the cleaned ID of a zone whose name, without trailing dots, is the value |
| Route53Zones.LooksLikeZoneId | app/Services/Aws/AwsRoute53ZoneService.php:148-155 | an input taken for a zone ID holds no "." and has at least 14 characters, so a domain name is never taken for an ID |
| Route53Zones.SetEntry | app/Services/Aws/AwsRoute53ZoneService.php:46 | writing a key of the ordered options array replaces the value of an existing key in place, and otherwise appends the key at the end; every other key keeps its position and value |
| Route53Zones.ZoneEntriesAgree | app/Services/Aws/AwsRoute53ZoneService.php:37-48 | the options array in key order holds exactly the entries of the options map |
| Route53Zones.FirstByName | app/Services/Aws/AwsRoute53ZoneService.php:50-88 | a match that is found is a position of the options whose lower-cased name is the domain |
| Route53Zones.FirstByNameLeast | app/Services/Aws/AwsRoute53ZoneService.php:50-88 | a match is found exactly when some zone name matches, and the match found has the least name in byte order among the matches, and is the earliest among equal names, as the stable `asort` puts it first |
| Route53Zones.PickByName | app/Services/Aws/AwsRoute53ZoneService.php:50-88 | the loop over the options keeps the best match so far and ends with the first match of the sorted options |
| Route53Zones.FindZone | app/Services/Aws/AwsRoute53ZoneService.php:115-122 | a zone found for an ID is one of the account's zones with that cleaned ID; none is found only when no zone has it |
| Route53Zones.ZoneService.constructor | app/Services/Aws/AwsRoute53ZoneService.php:103-131 | a new resolver has an empty cache and has made no API call |
| Route53Zones.ZoneService.GetHostedZones | app/Services/Aws/AwsRoute53ZoneService.php:26-56 | the result is the map from cleaned ID to name without trailing dots; the cache gains every entry; one API call is made |
| Route53Zones.ZoneService.GetHostedZoneName | app/Services/Aws/AwsRoute53ZoneService.php:103-131 | a cached cleaned ID is answered from the cache with no API call and no cache change; otherwise one API call is made, and the name without trailing dots is returned and cached, or a not-found error leaves the cache unchanged |
| Route53Zones.ZoneService.GetHostedZoneId | app/Services/Aws/AwsRoute53ZoneService.php:69-92 | an ID-shaped input succeeds with its cleaned ID exactly when that ID is cached or exists; a cached ID makes no API call and leaves the cache, an uncached one makes one call and caches the zone's name, or fails with not-found and leaves the cache. A domain makes one API call, adds every zone to the cache, and succeeds exactly when some zone's lower-cased name equals the lower-cased domain without trailing dots; it then returns the ID of the first match in name order, and otherwise fails with the not-found error for the input |
| Route53Zones.ZoneService.ClearCache | app/Services/Aws/AwsRoute53ZoneService.php:136-139 | the cache is empty afterwards |
| Route53Zones.NameLookupTwice | app/Services/Aws/AwsRoute53ZoneService.php:107-110 | after a successful lookup, a second lookup of the same zone gives the same name and makes no further API call |
| CloudflareInput.NormalizeRecordName | app/Traits/CloudflareTrait.php:94-107 | "@" gives the zone; a name equal to the zone or ending in "." + zone is kept; any other name gets "." + zone appended; so the result is always the zone or ends with "." + zone |
| CloudflareInput.NormalizeRecordNameIdempotent | app/Traits/CloudflareTrait.php:94-107 | normalising twice is normalising once, for every zone |
| CloudflareInput.StartsAlnumNotBlank | app/Traits/CloudflareTrait.php:124-129 | an input that matches one of the zone or name patterns is never blank, so the emptiness checks only choose the message |
| CloudflareInput.ValidateZone | app/Traits/CloudflareTrait.php:118-134 | accepted exactly when the input is a string that is a 32-character hex ID or a domain with a top-level part of two or more letters (case-insensitive); a rejected string gets the empty-zone error when blank and the invalid-format error otherwise |
| CloudflareInput.ValidateRecordType | app/Traits/CloudflareTrait.php:141-159 | accepted exactly when the input is a string whose upper-cased form, without trimming, is one of the Cloudflare record types |
| CloudflareInput.BlankTypeUnknown | app/Traits/CloudflareTrait.php:147-156 | no blank string is a record type once upper-cased, so the emptiness check never rejects a valid type |
| CloudflareInput.RecordTypeNotTrimmed | app/Traits/CloudflareTrait.php:152-156 | a type with a leading space is rejected, however valid the rest is |
| CloudflareInput.ValidateRecordName | app/Traits/CloudflareTrait.php:166-182 | accepted exactly when the input is a string that is "@" or starts with a letter or digit followed by letters, digits, "-", "." and "_" |
| CloudflareInput.ValidateRecordValue | app/Traits/CloudflareTrait.php:189-200 | accepted exactly when the input is a string that is not blank after trimming |
| CloudflareInput.ValidateTtl | app/Traits/CloudflareTrait.php:207-220 | accepted exactly when the input is a string or integer whose integer value is 1 or lies in 60..86400; any other input is not a number |
| CloudflareInput.TtlGap | app/Traits/CloudflareTrait.php:215-217 | TTLs 2 to 59 are out of range |
| CloudflareInput.ValidatePriority | app/Traits/CloudflareTrait.php:227-244 | null and "" are accepted; otherwise accepted exactly when the input is a string or integer whose integer value lies in 0..65535 |
| CloudflareDns.ProxiableAreRecordTypes | app/Services/Cloudflare/CloudflareDnsService.php:20-25 | every proxiable type is one of the record types |
| CloudflareDns.MakePayload | app/Services/Cloudflare/CloudflareDnsService.php:119-133 | the body's type is the upper-cased type and its name, content and TTL are the arguments; `proxied` is present exactly for A, AAAA and CNAME and then carries the flag; `priority` is present exactly when one is given and the type is MX |
| CloudflareDns.MakePayloadIgnoresCase | app/Services/Cloudflare/CloudflareDnsService.php:119-133 | the body does not depend on how the type is spelled in case |
| CloudflareDns.PayloadProxiedOrPriority | app/Services/Cloudflare/CloudflareDnsService.php:126-133 | no body carries both a proxy flag and a priority |
| CloudflareDns.ToItem | app/Services/Cloudflare/CloudflareDnsService.php:58-69 | a listed item carries the record's ID, type, name, content and TTL; it is proxied exactly when the record's flag is true; its priority is present exactly when the record has one |
| CloudflareDns.Items | app/Services/Cloudflare/CloudflareDnsService.php:57-72 | one item per record of the page, in order |
| CloudflareDns.MatchingIff | app/Services/Cloudflare/CloudflareDnsService.php:38-50 | a record is among the matches exactly when it is stored and passes the type and name filters |
| CloudflareDns.ListedShape | app/Services/Cloudflare/CloudflareDnsService.php:36-75 | a listing holds at most 100 items; with a type filter every item has the upper-cased type; with a name filter every item has that name; every item is a stored record |
| CloudflareDns.ListedProxiedDefault | app/Services/Cloudflare/CloudflareDnsService.php:64 | a record without a stored proxy flag is listed as not proxied |
| CloudflareDns.ListedFirst | app/Services/Cloudflare/CloudflareDnsService.php:82-93 | the listing for a type and name is empty exactly when there is no match; otherwise it starts with the first match; every item has the upper-cased type and the name |
| CloudflareDns.FirstMatchAt | app/Services/Cloudflare/CloudflareDnsService.php:82-93 | a record with the type and name that no earlier record matches is the one found |
| CloudflareDns.FirstMatchIndex | app/Services/Cloudflare/CloudflareDnsService.php:82-93 | nothing is found exactly when no stored record has the type and name; what is found is the earliest stored record that has them |
| CloudflareDns.ReplaceId | app/Services/Cloudflare/CloudflareDnsService.php:185-187 | a PUT replaces every record with the ID by the new one and keeps all other records in place |
| CloudflareDns.RemoveId | app/Services/Cloudflare/CloudflareDnsService.php:198-201 | after a DELETE, the records are exactly the old ones with other IDs |
| CloudflareDns.RemoveIdKeepsInvariant | app/Services/Cloudflare/CloudflareDnsService.php:198-201 | deleting keeps IDs distinct and all issued by the provider |
| CloudflareDns.ReplaceIdAt | app/Services/Cloudflare/CloudflareDnsService.php:185-187 | with distinct IDs, a PUT to the ID of one record replaces exactly that record |
| CloudflareDns.MatchingUpdate | app/Services/Cloudflare/CloudflareDnsService.php:229-232 | replacing a record by one with the same filter answer keeps the number of matches |
| CloudflareDns.MatchingSnoc | app/Services/Cloudflare/CloudflareDnsService.php:235 | a created record joins the matches, at the end, exactly when it passes the filters |
| CloudflareDns.SameIdsIssued | app/Services/Cloudflare/CloudflareDnsService.php:185-187 | records with the same IDs position by position still carry only issued IDs |
| CloudflareDns.FreshId | app/Services/Cloudflare/CloudflareDnsService.php:135-142 | the next ID the provider issues is carried by no stored record |
| CloudflareDns.CreateKeepsInvariant | app/Services/Cloudflare/CloudflareDnsService.php:135-142 | creating a record under a new ID keeps the IDs distinct and issued |
| CloudflareDns.Upsert | app/Services/Cloudflare/CloudflareDnsService.php:218-238 | setRecord reports an update exactly when a record with the type and name exists, then under that record's ID with the count and the ID counter unchanged; otherwise it reports a creation under the next issued ID, appended after the unchanged records, and the counter advances by one |
| CloudflareDns.UpsertKeepsInvariant | app/Services/Cloudflare/CloudflareDnsService.php:218-238 | setRecord keeps the IDs distinct and issued |
| CloudflareDns.UpsertNoDuplicate | app/Services/Cloudflare/CloudflareDnsService.php:218-238 | setRecord never duplicates a (type, name) pair: the count of records with them stays the same when there is one, and becomes exactly one when there is none |
| CloudflareDns.UpsertThenFind | app/Services/Cloudflare/CloudflareDnsService.php:218-238 | after setRecord, finding the type and name gives the stored body under the ID setRecord reported |
| CloudflareDns.UpsertTwice | app/Services/Cloudflare/CloudflareDnsService.php:218-238 | a second identical setRecord reports an update of the same ID and leaves the zone and the ID counter unchanged |
| CloudflareDns.CloudflareZone.constructor | app/Services/Cloudflare/CloudflareDnsService.php:36-238 | a new zone has no records and has issued no ID |
| CloudflareDns.CloudflareZone.ListRecords | app/Services/Cloudflare/CloudflareDnsService.php:36-75 | the items are the listed shapes of the first page of records passing the filters, in order |
| CloudflareDns.CloudflareZone.FindRecord | app/Services/Cloudflare/CloudflareDnsService.php:82-93 | the answer is the listed shape of the first record with the upper-cased type and the name, or nothing when there is none |
| CloudflareDns.CloudflareZone.CreateRecord | app/Services/Cloudflare/CloudflareDnsService.php:110-143 | the body is appended under a new ID that no record had, the ID is returned and the counter moves on by one |
| CloudflareDns.CloudflareZone.UpdateRecord | app/Services/Cloudflare/CloudflareDnsService.php:159-188 | succeeds exactly when the ID exists; the record with the ID is replaced by the body and nothing else changes |
| CloudflareDns.CloudflareZone.DeleteRecord | app/Services/Cloudflare/CloudflareDnsService.php:198-201 | succeeds exactly when the ID exists; the record with the ID is removed and nothing else changes |
| CloudflareDns.CloudflareZone.SetRecord | app/Services/Cloudflare/CloudflareDnsService.php:218-238 | the action, the ID and the new zone are those of the upsert: update of the first match under its ID, or creation under a new ID |
| CfZones.FirstNamed | app/Services/Cf/CfZoneService.php:41-52 | a zone answered for a name is one of the account's zones with exactly that name; none is answered only when no zone has it |
| CfZones.WithId | app/Services/Cf/CfZoneService.php:77-84 | a zone answered for an ID is one of the account's zones with that ID; none only when no zone has it |
| CfZones.ZoneMapShape | app/Services/Cf/CfZoneService.php:107-110 | every listed zone's name is a key of the map, and every entry pairs a zone's name with that zone's ID |
| CfZones.ZoneResolver.constructor | app/Services/Cf/CfZoneService.php:28-121 | a new resolver over an account with distinct zone IDs has an empty cache and has made no API call |
| CfZones.ZoneResolver.GetZoneId | app/Services/Cf/CfZoneService.php:28-56 | a 32-character hex input is returned as it is with no lookup and no cache change; a cached name is answered from the cache with no API call; otherwise one API call is made, a missing zone is a not-found error that leaves the cache alone, and the first zone's ID is returned and cached under the input |
| CfZones.ZoneResolver.GetZoneName | app/Services/Cf/CfZoneService.php:67-89 | succeeds exactly when a zone has the ID and then gives that zone's name; an ID found in the cache is answered with no API call and no cache change; otherwise one API call is made and the name is cached with the ID |
| CfZones.ZoneResolver.GetZones | app/Services/Cf/CfZoneService.php:96-113 | the result is the name-to-ID map of the first page of zones, the cache gains every entry, and one API call is made |
| CfZones.ZoneResolver.ClearCache | app/Services/Cf/CfZoneService.php:118-121 | the cache is empty afterwards and no API call is made |
| CfZones.FirstPage | app/Services/Cf/CfZoneService.php:98-100 | the first page holds at most 50 zones, all of the account |
| CfZones.SoleZoneWithId | app/Services/Cf/CfZoneService.php:77-84 | with distinct IDs, looking up a zone's own ID gives that zone |
| CfZones.ZoneIdLookupTwice | app/Services/Cf/CfZoneService.php:36-38 | after a successful resolution, a second resolution of the same input gives the same ID and makes no further API call |
| DoDnsInput.NormalizeDoRecordName | app/Traits/DoDnsTrait.php:51-55 | the name is passed through unchanged, so "@" stays "@" |
| DoDnsInput.ValidateDomain | app/Traits/DoDnsTrait.php:66-95 | accepted exactly when the input is a non-blank string of at most 253 characters, with no dot-separated label over 63 characters, made of LDH labels; the too-long error is given exactly for non-blank strings over 253 characters |
| DoDnsInput.ValidateRecordType | app/Traits/DoDnsTrait.php:102-119 | accepted exactly when the input is a string whose trimmed, upper-cased form is A, AAAA or CNAME; a rejected string reports that form |
| DoDnsInput.WithoutWildcard | app/Traits/DoDnsTrait.php:147 | a name starting with "*." loses exactly that prefix; any other name is unchanged |
| DoDnsInput.ValidateRecordName | app/Traits/DoDnsTrait.php:126-161 | accepted exactly when the input is a non-blank string that is "@", or has at most 253 characters, no label over 63 characters once a leading "*." is dropped, and matches the LDH pattern with an optional wildcard label |
| DoDnsInput.ValidateRecordValue | app/Traits/DoDnsTrait.php:168-179 | accepted exactly when the input is a string that is not blank after trimming |
| DoDnsInput.ValidateTtl | app/Traits/DoDnsTrait.php:186-204 | accepted exactly when the input is an integer or a numeric string whose integer value lies in 30..86400; anything that is no number gets the not-a-number error |
| DoDnsInput.TtlDigitsAccepted | app/Traits/DoDnsTrait.php:186-204 | a string of digits whose value lies in 30..86400 is accepted |
| DoDnsInput.TtlWithUnitRejected | app/Traits/DoDnsTrait.php:192-194 | digits followed by a unit of letters, such as "300s", are not a number |
| DoDnsInput.ValidateOptionalNumber | app/Traits/DoDnsTrait.php:211-232 | null and "" are accepted; otherwise accepted exactly when the input is an integer or numeric string with integer value in 0..max; a rejection is out-of-range for numbers and not-a-number otherwise |
| DoDnsInput.ValidatePriority | app/Traits/DoDnsTrait.php:211-232 | null and "" are accepted; otherwise accepted exactly for numbers in 0..65535 |
| DoDnsInput.ValidatePort | app/Traits/DoDnsTrait.php:239-260 | null and "" are accepted; otherwise accepted exactly for numbers in 0..65535 |
| DoDnsInput.ValidateWeight | app/Traits/DoDnsTrait.php:267-288 | null and "" are accepted; otherwise accepted exactly for numbers in 0..65535 |
| DoDnsInput.ValidateFlags | app/Traits/DoDnsTrait.php:295-316 | null and "" are accepted; otherwise accepted exactly for numbers in 0..255 |
| DoDnsInput.ValidateTag | app/Traits/DoDnsTrait.php:323-339 | null and "" are accepted; otherwise accepted exactly for strings that are issue, issuewild or iodef in any letter case; other non-strings get the not-a-string error |
| DoDns.OfTypeIff | app/Services/Do/DoDnsService.php:39-53 | a record is listed exactly when it is stored and, with a type filter, has that type; without a filter every record is listed |
| DoDns.OfTypeSnoc | app/Services/Do/DoDnsService.php:40-53 | listing keeps the provider's order: a later record that passes the filter is appended after the earlier ones |
| DoDns.FirstNamedIndex | app/Services/Do/DoDnsService.php:70-81 | the lookup yields None exactly when no record has the type and name; otherwise it yields the earliest record that has them |
| DoDns.FindInListed | app/Services/Do/DoDnsService.php:72-78 | searching the type-filtered list by name finds the same record as searching all records by type and name |
| DoDns.UpdateId | app/Services/Do/DoDnsService.php:150-161 | updating keeps the number of records; the record with the ID gets the new name, data and TTL with its ID and type kept, and every other record is unchanged |
| DoDns.RemoveId | app/Services/Do/DoDnsService.php:179 | a record remains exactly when it was stored and has a different ID |
| DoDns.RemoveIdValid | app/Services/Do/DoDnsService.php:173-186 | deleting keeps record IDs below the next ID and pairwise distinct |
| DoDns.RemoveAbsentId | app/Services/Do/DoDnsService.php:180-182 | deleting an ID no record carries changes nothing |
| DoDns.Upsert | app/Services/Do/DoDnsService.php:203-234 | setRecord reports an update exactly when a record with the type and name exists, then under that record's ID with the count and the next ID unchanged; otherwise it reports a creation under the next ID, appended after the unchanged records, and the next ID advances by one |
| DoDns.UpsertValid | app/Services/Do/DoDnsService.php:203-234 | an upsert keeps record IDs below the next ID and pairwise distinct |
| DoDns.UpdateIdAt | app/Services/Do/DoDnsService.php:150-161 | with distinct IDs, updating by the ID of one record changes exactly that record |
| DoDns.UpsertNoDuplicate | app/Services/Do/DoDnsService.php:203-234 | an upsert never duplicates a (type, name) pair: with a match the count of such records is unchanged, without one it becomes exactly one |
| DoDns.UpsertThenFind | app/Services/Do/DoDnsService.php:203-234 | after an upsert the first record with the type and name is the written one, under the returned ID |
| DoDns.UpsertTwice | app/Services/Do/DoDnsService.php:203-234 | a second identical upsert reports an update of the same ID and changes neither the records nor the next ID |
| DoDns.DoDomainRecords.constructor | app/Services/Do/DoDnsService.php:14-234 | a new domain has no records, has issued no ID, has no provider failure and keeps its invariant |
| DoDns.DoDomainRecords.ListRecords | app/Services/Do/DoDnsService.php:31-59 | on a provider failure the wrapped list error; otherwise the records with the requested type in the provider's order |
| DoDns.DoDomainRecords.FindRecord | app/Services/Do/DoDnsService.php:70-81 | on a provider failure the wrapped list error; otherwise the first record with the type and name, or None |
| DoDns.ScanNamed | app/Services/Do/DoDnsService.php:74-80 | over a listing of one type, the scan returns the first record with the name, or None when no record has it |
| DoDns.DoDomainRecords.CreateRecord | app/Services/Do/DoDnsService.php:98-126 | on a provider failure the wrapped create error and no change; otherwise the record is appended under a fresh ID, which is returned |
| DoDns.DoDomainRecords.UpdateRecord | app/Services/Do/DoDnsService.php:138-165 | on a provider failure or an unknown ID the wrapped update error and no change; otherwise the record's name, data and TTL are replaced |
| DoDns.DoDomainRecords.DeleteRecord | app/Services/Do/DoDnsService.php:173-186 | on a provider failure the wrapped delete error; otherwise success with the record removed, and an unknown ID leaves the records unchanged |
| DoDns.DoDomainRecords.SetRecord | app/Services/Do/DoDnsService.php:203-234 | on a provider failure the wrapped list error and no change; otherwise the state and the reported action and ID are those of the upsert |
| DoDns.DeleteTwice | app/Services/Do/DoDnsService.php:173-186 | deleting the same record twice succeeds both times and leaves what the first delete left |
| DoDomains.IdentityMap | app/Services/Do/DoDomainService.php:36-40 | the map holds exactly the listed names, each mapped to itself |
| DoDomains.DoDomainResolver.constructor | app/Services/Do/DoDomainService.php:85-88 | a new resolver starts with an empty cache and no API requests |
| DoDomains.DoDomainResolver.GetDomains | app/Services/Do/DoDomainService.php:28-48 | one API request; on failure the wrapped fetch error and an unchanged cache; otherwise every account domain mapped to itself, all added to the cache |
| DoDomains.DoDomainResolver.GetDomainName | app/Services/Do/DoDomainService.php:59-80 | a cached domain is answered without a request; otherwise one request, which caches and returns a domain of the account, reports an unknown one as not found and wraps a provider failure |
| DoDomains.DoDomainResolver.ClearCache | app/Services/Do/DoDomainService.php:85-88 | the cache is emptied and nothing else changes |
| DoDomains.DomainNameTwice | app/Services/Do/DoDomainService.php:59-80 | a successful resolution returns the domain itself, which is in the account, and a second resolution returns the same without a further request |
| DomainValidation.ValidateDomainFormat | app/Traits/DomainValidationTrait.php:25-67 | accepted exactly when the trimmed string is non-empty, has no trailing dot, contains a dot, has at most 253 characters and labels of at most 63, and is a sequence of LDH labels; a trailing dot and a missing TLD each get their own error |
| DomainValidation.AcceptedDomainLabels | app/Traits/DomainValidationTrait.php:43-64 | an accepted domain splits into at least two labels, each an LDH label |
| DomainValidation.ValidateRecordNameFormat | app/Traits/DomainValidationTrait.php:84-120 | accepted exactly when the trimmed string is "@", or is non-empty with at most 253 characters, labels of at most 63 and matches the LDH host-name pattern; an over-long name other than "@" gets the too-long error |
| DomainValidation.AcceptedRecordNameChars | app/Traits/DomainValidationTrait.php:114-117 | an accepted name other than "@" holds no wildcard, no underscore and no trailing dot |
| DomainValidation.CommonRecordNameAcceptedEverywhere | app/Traits/DomainValidationTrait.php:84-120 | an unpadded name the shared check accepts is accepted by the Route53, Cloudflare and DigitalOcean record-name checks |
| DomainValidation.CommonDomainAcceptedByDo | app/Traits/DomainValidationTrait.php:25-67 | an unpadded domain the shared check accepts is accepted by the DigitalOcean domain check |
| Dtos.NewServer | app/DTOs/ServerDTO.php:10-21 | a server built from a name and host has port 22, user root, no key, provider, droplet, instance or info, and is not provisioned |
| Dtos.ServerDTO.IsDo | app/DTOs/ServerDTO.php:26-29 | a DigitalOcean server has a provider, and it is not "aws" |
| Dtos.ServerDTO.IsAws | app/DTOs/ServerDTO.php:34-37 | an AWS server has a provider, and it is not "digitalocean" |
| Dtos.ServerDTO.IsProvisioned | app/DTOs/ServerDTO.php:42-45 | a server is provisioned exactly when it belongs to one of the two providers and not both, and then its provider is "digitalocean" or "aws" |
| Dtos.ProvidersExclusive | app/DTOs/ServerDTO.php:26-37 | no server is both a DigitalOcean droplet and an AWS instance |
| Builders.StringField | app/Builders/SiteBuilder.php:104 | a stored string under the key is taken; a missing or wrongly typed entry gives the default |
| Builders.OptStringField | app/Builders/SiteBuilder.php:105-106 | present exactly when a string is stored under the key, and then that string |
| Builders.BoolField | app/Builders/SupervisorBuilder.php:64-65 | a stored boolean under the key is taken; a missing or wrongly typed entry gives the default |
| Builders.IntField | app/Builders/ServerBuilder.php:77 | a stored integer under the key is taken; a missing or wrongly typed entry gives the default |
| Builders.OptIntField | app/Builders/ServerBuilder.php:81 | present exactly when an integer is stored under the key, and then that integer |
| Builders.CheckCron | app/Builders/CronBuilder.php:73-86 | builds exactly when script and schedule are non-empty, giving the fields as set; a missing script is reported before a missing schedule |
| Builders.CronBuilder.constructor | app/Builders/CronBuilder.php:24-27 | both fields start empty |
| Builders.CronBuilder.From | app/Builders/CronBuilder.php:32-37 | the builder holds the fields of the given cron job |
| Builders.CronBuilder.FromStorage | app/Builders/CronBuilder.php:44-52 | the builder holds the stored script and schedule, with "" for a missing or wrongly typed one |
| Builders.CronBuilder.SetScript | app/Builders/CronBuilder.php:54-59 | only the script changes |
| Builders.CronBuilder.SetSchedule | app/Builders/CronBuilder.php:61-66 | only the schedule changes |
| Builders.CronBuilder.Build | app/Builders/CronBuilder.php:73-86 | the result is the validation of the current fields |
| Builders.RebuildCron | app/Builders/CronBuilder.php:32-86 | rebuilding a cron job gives it back exactly when both of its fields are non-empty |
| Builders.CheckSupervisor | app/Builders/SupervisorBuilder.php:117-134 | builds exactly when program and script are non-empty, giving the fields as set; a missing program is reported before a missing script |
| Builders.SupervisorDefaults | app/Builders/SupervisorBuilder.php:52-68 | an empty stored array gives no program or script, autostart and autorestart on, 3600 seconds and one process, and no program to build |
| Builders.SupervisorBuilder.constructor | app/Builders/SupervisorBuilder.php:28-31 | no program or script, autostart and autorestart on, 3600 seconds, one process |
| Builders.SupervisorBuilder.From | app/Builders/SupervisorBuilder.php:36-45 | the builder holds the fields of the given program |
| Builders.SupervisorBuilder.FromStorage | app/Builders/SupervisorBuilder.php:52-68 | the builder holds each stored field of the right type, and the default otherwise |
| Builders.SupervisorBuilder.SetProgram | app/Builders/SupervisorBuilder.php:70-75 | only the program changes |
| Builders.SupervisorBuilder.SetScript | app/Builders/SupervisorBuilder.php:77-82 | only the script changes |
| Builders.SupervisorBuilder.SetAutostart | app/Builders/SupervisorBuilder.php:84-89 | only the autostart flag changes |
| Builders.SupervisorBuilder.SetAutorestart | app/Builders/SupervisorBuilder.php:91-96 | only the autorestart flag changes |
| Builders.SupervisorBuilder.SetStopWaitSecs | app/Builders/SupervisorBuilder.php:98-103 | only the stop wait changes |
| Builders.SupervisorBuilder.SetNumProcs | app/Builders/SupervisorBuilder.php:105-110 | only the process count changes |
| Builders.SupervisorBuilder.Build | app/Builders/SupervisorBuilder.php:117-134 | the result is the validation of the current fields |
| Builders.RebuildSupervisor | app/Builders/SupervisorBuilder.php:36-134 | rebuilding a program gives it back exactly when its name and script are non-empty |
| Builders.CheckServer | app/Builders/ServerBuilder.php:156-176 | builds exactly when name and host are non-empty, giving the fields as set; a missing name is reported before a missing host |
| Builders.StoredServer | app/Builders/ServerBuilder.php:63-83 | the stored state never has info, and a missing port or user gives 22 or root |
| Builders.ServerBuilder.constructor | app/Builders/ServerBuilder.php:34-37 | the defaults of a server with empty name and host |
| Builders.ServerBuilder.From | app/Builders/ServerBuilder.php:42-54 | the builder holds every field of the given server, info included |
| Builders.ServerBuilder.FromStorage | app/Builders/ServerBuilder.php:63-83 | the builder holds the state read from storage |
| Builders.ServerBuilder.SetName | app/Builders/ServerBuilder.php:85-90 | only the name changes |
| Builders.ServerBuilder.SetHost | app/Builders/ServerBuilder.php:92-97 | only the host changes |
| Builders.ServerBuilder.SetPort | app/Builders/ServerBuilder.php:99-104 | only the port changes |
| Builders.ServerBuilder.SetUsername | app/Builders/ServerBuilder.php:106-111 | only the user changes |
| Builders.ServerBuilder.SetPrivateKeyPath | app/Builders/ServerBuilder.php:113-118 | only the key path changes |
| Builders.ServerBuilder.SetProvider | app/Builders/ServerBuilder.php:120-125 | only the provider changes |
| Builders.ServerBuilder.SetDropletId | app/Builders/ServerBuilder.php:127-132 | only the droplet ID changes |
| Builders.ServerBuilder.SetInstanceId | app/Builders/ServerBuilder.php:134-139 | only the instance ID changes |
| Builders.ServerBuilder.SetInfo | app/Builders/ServerBuilder.php:144-149 | only the info changes |
| Builders.ServerBuilder.Build | app/Builders/ServerBuilder.php:156-176 | the result is the validation of the current fields |
| Builders.RebuildServer | app/Builders/ServerBuilder.php:42-176 | rebuilding a server gives it back with every field, info included, exactly when its name and host are non-empty |
| Builders.ServerFromStorageDropsInfo | app/Builders/ServerBuilder.php:63-83 | a server built from storage has no info, and builds exactly when the stored name and host are non-empty strings |
| Builders.CheckSite | app/Builders/SiteBuilder.php:201-223 | builds exactly when domain, server and PHP version are non-empty, giving the fields as set; errors are reported in that order |
| Builders.HydrateEach | app/Builders/SiteBuilder.php:83-101 | a successful hydration yields at most one object per stored entry |
| Builders.CollectEach | app/Builders/SiteBuilder.php:83-101 | the loop over a stored list yields what the hydration of that list yields |
| Builders.HydrateEachStopsAtError | app/Builders/SiteBuilder.php:84-89 | once a prefix of the entries fails to build, the whole list fails with that error |
| Builders.StoredSite | app/Builders/SiteBuilder.php:65-112 | a missing, non-string or empty PHP version is an error; a success has a PHP version and takes domain, server, repository, branch and web root from storage with their defaults |
| Builders.StoredSiteErr | app/Builders/SiteBuilder.php:76-101 | the failures in the order they are checked: the PHP version, then the cron jobs, then the supervisor programs |
| Builders.StoredSiteOk | app/Builders/SiteBuilder.php:103-111 | with a PHP version and nested entries that build, the site holds every stored field with its default |
| Builders.SiteBuilder.constructor | app/Builders/SiteBuilder.php:36-39 | everything empty, web root "public" |
| Builders.SiteBuilder.From | app/Builders/SiteBuilder.php:44-55 | the builder holds the fields of the given site |
| Builders.SiteBuilder.FromStorage | app/Builders/SiteBuilder.php:65-112 | fails exactly when the stored site fails, with the same error; otherwise a new builder holding the stored site |
| Builders.SiteBuilder.SetDomain | app/Builders/SiteBuilder.php:114-119 | only the domain changes |
| Builders.SiteBuilder.SetRepo | app/Builders/SiteBuilder.php:121-126 | only the repository changes |
| Builders.SiteBuilder.SetBranch | app/Builders/SiteBuilder.php:128-133 | only the branch changes |
| Builders.SiteBuilder.SetServer | app/Builders/SiteBuilder.php:135-140 | only the server changes |
| Builders.SiteBuilder.SetPhpVersion | app/Builders/SiteBuilder.php:142-147 | only the PHP version changes |
| Builders.SiteBuilder.SetWebRoot | app/Builders/SiteBuilder.php:149-154 | only the web root changes |
| Builders.SiteBuilder.SetCrons | app/Builders/SiteBuilder.php:159-164 | the cron list is replaced and nothing else changes |
| Builders.SiteBuilder.AddCron | app/Builders/SiteBuilder.php:169-174 | the cron job is appended at the end and nothing else changes |
| Builders.SiteBuilder.SetSupervisors | app/Builders/SiteBuilder.php:179-184 | the program list is replaced and nothing else changes |
| Builders.SiteBuilder.AddSupervisor | app/Builders/SiteBuilder.php:189-194 | the program is appended at the end and nothing else changes |
| Builders.SiteBuilder.Build | app/Builders/SiteBuilder.php:201-223 | the result is the validation of the current fields |
| Builders.RebuildSite | app/Builders/SiteBuilder.php:44-223 | rebuilding a site gives it back exactly when its domain, server and PHP version are non-empty |
| Builders.SiteServerBuilder.constructor | app/Builders/SiteServerBuilder.php:29-32 | neither a site nor a server is set |
| Builders.SiteServerBuilder.SetSite | app/Builders/SiteServerBuilder.php:34-39 | the site is set and the server is kept |
| Builders.SiteServerBuilder.SetServer | app/Builders/SiteServerBuilder.php:41-46 | the server is set and the site is kept |
| Builders.SiteServerBuilder.Build | app/Builders/SiteServerBuilder.php:53-66 | builds exactly when both are set, pairing them; a missing site is reported before a missing server |
| Builders.PairLastSet | app/Builders/SiteServerBuilder.php:34-66 | the pair built holds the site and server set last |
| SiteRepository.ListOf | app/Repositories/SiteRepository.php:357-367 | a list of dehydrated items keeps their number and order, each under its position |
| SiteRepository.Entry | app/Repositories/SiteRepository.php:337-340 | the single entry holds the value under its key and nothing under any other key |
| SiteRepository.Part | app/Repositories/SiteRepository.php:352-368 | a conditional entry holds the value under its key exactly when its condition holds, and nothing under any other key |
| SiteRepository.OptPart | app/Repositories/SiteRepository.php:342-348 | an optional entry holds the string under its key exactly when one is set, and nothing under any other key |
| SiteRepository.DehydratedLookup | app/Repositories/SiteRepository.php:335-371 | a key of the stored site array is found in the first of its parts that holds the key |
| SiteRepository.DehydratedRequired | app/Repositories/SiteRepository.php:337-350 | a stored site always holds its domain, server and PHP version |
| SiteRepository.DehydratedOptional | app/Repositories/SiteRepository.php:342-354 | a stored site holds repository and branch exactly when they are set, and the web root exactly when it is not "public" |
| SiteRepository.DehydratedLists | app/Repositories/SiteRepository.php:356-368 | a stored site holds its cron jobs and supervisor programs exactly when the lists are non-empty, each item dehydrated in order |
| SiteRepository.LookupAt | app/Repositories/SiteRepository.php:335-371 | a lookup finds the first entry under the key |
| SiteRepository.HydrateSite | app/Repositories/SiteRepository.php:392-395 | a hydrated site has a domain, a server and a PHP version |
| SiteRepository.HydrateEachRoundTrip | app/Repositories/SiteRepository.php:356-368 | hydrating a dehydrated list gives its items back in order when each item reads back as itself |
| SiteRepository.CronRoundTrip | app/Repositories/SiteRepository.php:379-385 | a stored cron job reads back as itself exactly when it has a script and a schedule; otherwise the builder's error |
| SiteRepository.SupervisorRoundTrip | app/Repositories/SiteRepository.php:403-413 | a stored supervisor program reads back as itself exactly when it has a name and a script; otherwise the builder's error |
| SiteRepository.CronsRoundTrip | app/Repositories/SiteRepository.php:356-361 | the cron jobs of a stored site read back as they were |
| SiteRepository.SupervisorsRoundTrip | app/Repositories/SiteRepository.php:363-368 | the supervisor programs of a stored site read back as they were |
| SiteRepository.SiteRoundTrip | app/Repositories/SiteRepository.php:335-395 | storing a site the builders accept and hydrating it gives the same site |
| SiteRepository.HydratedCronsValid | app/Repositories/SiteRepository.php:392-395 | every hydrated cron job has a script and a schedule |
| SiteRepository.HydratedSupervisorsValid | app/Repositories/SiteRepository.php:392-395 | every hydrated supervisor program has a name and a script |
| SiteRepository.HydratedSiteValid | app/Repositories/SiteRepository.php:392-395 | every site read from storage is one the builders accept |
| SiteRepository.HydrateAll | app/Repositories/SiteRepository.php:126-131 | a successful listing has one site per stored entry |
| SiteRepository.HydrateAllEntries | app/Repositories/SiteRepository.php:126-131 | a listing holds, in order, the site hydrated from each entry |
| SiteRepository.OnServer | app/Repositories/SiteRepository.php:144-152 | the filter keeps at most as many sites as it is given |
| SiteRepository.OnServerExactly | app/Repositories/SiteRepository.php:145-150 | every kept site is on the server and was given; every given site on the server is kept |
| SiteRepository.DomainOf | app/Repositories/SiteRepository.php:109 | the domain an entry carries, and it is the only one it carries |
| SiteRepository.FirstWithDomain | app/Repositories/SiteRepository.php:108-114 | the index of the first entry with the domain, with none before it; None exactly when no entry has it |
| SiteRepository.FirstWithDomainIs | app/Repositories/SiteRepository.php:108-114 | an index with the domain and none before it is the first |
| SiteRepository.FoundHasDomain | app/Repositories/SiteRepository.php:104-115 | the site found for a domain has that domain and builds as it is |
| SiteRepository.FoundValid | app/Repositories/SiteRepository.php:104-115 | every builder accepts the site found for a domain |
| SiteRepository.WithoutDomain | app/Repositories/SiteRepository.php:166-171 | every kept entry carries a domain other than the deleted one and was stored; nothing is added |
| SiteRepository.DeletedAbsent | app/Repositories/SiteRepository.php:162-176 | after a delete no entry has the domain, and finding it gives nothing |
| SiteRepository.DeleteAbsentUnchanged | app/Repositories/SiteRepository.php:166-171 | deleting a domain no entry has, when every entry carries a domain, changes nothing |
| SiteRepository.DeleteKeepsUnique | app/Repositories/SiteRepository.php:162-176 | deleting keeps the stored domains unique |
| SiteRepository.WithoutScript | app/Repositories/SiteRepository.php:230-235 | the kept cron jobs are exactly the listed ones not running the script |
| SiteRepository.WithoutProgram | app/Repositories/SiteRepository.php:296-301 | the kept programs are exactly the listed ones without the name |
| SiteRepository.CreateThenFind | app/Repositories/SiteRepository.php:58-70 | a created site is found again under its domain, as it was given |
| SiteRepository.CreateKeepsUnique | app/Repositories/SiteRepository.php:58-70 | creating keeps the stored domains unique |
| SiteRepository.UpdateThenFind | app/Repositories/SiteRepository.php:78-96 | an updated site is found again under its domain as it was given, and no other entry changes |
| SiteRepository.UpdateKeepsUnique | app/Repositories/SiteRepository.php:78-96 | updating keeps the stored domains unique |
| SiteRepository.AddCronThenFind | app/Repositories/SiteRepository.php:189-211 | after addCron the site is found with the new job at the end of its list |
| SiteRepository.DeleteCronThenFind | app/Repositories/SiteRepository.php:220-242 | after deleteCron the site is found with the jobs not running the script, and none runs it |
| SiteRepository.AddSupervisorThenFind | app/Repositories/SiteRepository.php:255-277 | after addSupervisor the site is found with the new program at the end of its list |
| SiteRepository.DeleteSupervisorThenFind | app/Repositories/SiteRepository.php:286-308 | after deleteSupervisor the site is found with the programs of other names, and none has the name |
| SiteRepository.CronChangesKeepUnique | app/Repositories/SiteRepository.php:189-242 | adding and deleting cron jobs keep the stored domains unique |
| SiteRepository.SupervisorChangesKeepUnique | app/Repositories/SiteRepository.php:255-308 | adding and deleting supervisor programs keep the stored domains unique |
| SiteRepository.Values | app/Repositories/SiteRepository.php:49 | the values of a stored array, in order |
| SiteRepository.SiteRepo.constructor | app/Repositories/SiteRepository.php:320-325 | a new repository has no inventory loaded |
| SiteRepository.SiteRepo.LoadInventory | app/Repositories/SiteRepository.php:38-50 | the stored sites are loaded; a stored value that is not an array is replaced by an empty list, which is saved |
| SiteRepository.SiteRepo.Persist | app/Repositories/SiteRepository.php:69 | the saved inventory holds the sites and nothing else changes |
| SiteRepository.SiteRepo.FindByDomain | app/Repositories/SiteRepository.php:104-115 | without an inventory the not-loaded error; otherwise the first entry with the domain, hydrated, or None |
| SiteRepository.SiteRepo.All | app/Repositories/SiteRepository.php:122-132 | without an inventory the not-loaded error; otherwise every entry hydrated in order |
| SiteRepository.SiteRepo.FindByServer | app/Repositories/SiteRepository.php:140-153 | without an inventory the not-loaded error; otherwise every entry is hydrated and the sites on the server are kept in order |
| SiteRepository.CollectHydrated | app/Repositories/SiteRepository.php:126-129 | the loop gives exactly the in-order hydration of the entries, and the error of the first entry that fails |
| SiteRepository.SitesOnServer | app/Repositories/SiteRepository.php:144-150 | the loop gives exactly the hydrated sites whose server matches, in order, or the error of the first entry that fails |
| SiteRepository.HydrateListEntry | app/Repositories/SiteRepository.php:126-129 | a successful listing holds, at each position, what the entry at that position hydrates to |
| SiteRepository.HydrateListStopsAtError | app/Repositories/SiteRepository.php:126-129 | once a prefix of the entries fails, the whole listing fails with the same error |
| SiteRepository.ScanScripts | app/Repositories/SiteRepository.php:198-203 | the duplicate check of addCron fires exactly when some job of the site already runs the script |
| SiteRepository.ScanPrograms | app/Repositories/SiteRepository.php:263-268 | the duplicate check of addSupervisor fires exactly when some program of the site already has the name |
| SiteRepository.SiteRepo.Create | app/Repositories/SiteRepository.php:58-70 | without an inventory the not-loaded error; a stored domain is refused with no change; otherwise the site is appended |
| SiteRepository.SiteRepo.Update | app/Repositories/SiteRepository.php:78-96 | without an inventory the not-loaded error; an unknown domain is refused with no change; otherwise the first entry with the domain is rewritten |
| SiteRepository.SiteRepo.Delete | app/Repositories/SiteRepository.php:162-176 | without an inventory the not-loaded error; otherwise the entries with the domain and those without a domain are dropped, the rest kept in order |
| SiteRepository.KeepOtherDomains | app/Repositories/SiteRepository.php:166-171 | the loop keeps exactly the entries that name a domain other than the deleted one, in order |
| SiteRepository.SiteRepo.AddCron | app/Repositories/SiteRepository.php:189-211 | without an inventory the not-loaded error; an unknown site or a script it already runs is refused with no change; otherwise the job is appended to the site |
| SiteRepository.SiteRepo.DeleteCron | app/Repositories/SiteRepository.php:220-242 | without an inventory the not-loaded error; an unknown site is refused with no change; otherwise the site's jobs running the script are dropped |
| SiteRepository.SiteRepo.AddSupervisor | app/Repositories/SiteRepository.php:255-277 | without an inventory the not-loaded error; an unknown site or a program name it already has is refused with no change; otherwise the program is appended to the site |
| SiteRepository.SiteRepo.DeleteSupervisor | app/Repositories/SiteRepository.php:286-308 | without an inventory the not-loaded error; an unknown site is refused with no change; otherwise the site's programs of the name are dropped |
| Distribution.Slug | app/Enums/Distribution.php:24-44 | the backing value of a case is "ubuntu" or "debian" |
| Distribution.DisplayName | app/Enums/Distribution.php:53-59 | the display name is non-empty and lower-cases to the backing value |
| Distribution.Codename | app/Enums/Distribution.php:64-70 | a release the codename table does not know is "LTS" on Ubuntu and "Stable" on Debian, and only such a release |
| Distribution.FormatVersion | app/Enums/Distribution.php:75-83 | the display name, a space, the version, " LTS" for Ubuntu only, and the codename in parentheses |
| Distribution.IsValidVersion | app/Enums/Distribution.php:113-120 | a supported version is at least the distribution's minimum version, and an Ubuntu one is an LTS release |
| Distribution.IsUbuntuLts | app/Enums/Distribution.php:128-139 | an LTS version (a final line feed aside) is a dotted numeric version of exactly two parts, an even year and 4 |
| Distribution.DefaultSshUsername | app/Enums/Distribution.php:92-98 | the login user is never empty nor root, and is "ubuntu" exactly on Ubuntu |
| Distribution.SupportedVersions | app/Enums/Distribution.php:143-149 | the description starts with the minimum supported release |
| Distribution.FromSlug | app/Enums/Distribution.php:160-163 | a backing value gives the case carrying it; no case exactly when it is not a backing value |
| Distribution.Slugs | app/Enums/Distribution.php:160-163 | two distinct backing values, among them every case's |
| Distribution.FromSlugRoundTrip | app/Enums/Distribution.php:160-163 | every case is found again from its backing value |
| Distribution.Year | app/Enums/Distribution.php:131-135 | the two-digit year is below 100 |
| Distribution.VersionParts | app/Enums/Distribution.php:113-120 | a dotted version has at least one numeric component |
| Distribution.VersionAtLeastReflexive | app/Enums/Distribution.php:113-120 | every dotted numeric version compares at least as large as itself |
| Distribution.LtsParts | app/Enums/Distribution.php:128-138 | a "YY.04" release is dotted numeric with components YY and 4 |
| Distribution.MinUbuntuParts | app/Enums/Distribution.php:24 | the Ubuntu minimum 24.04 has components 24 and 4 |
| Distribution.MinDebianParts | app/Enums/Distribution.php:29 | the Debian minimum 12 has the one component 12 |
| Distribution.UbuntuValidIff | app/Enums/Distribution.php:113-138 | an Ubuntu release without a trailing line feed is supported exactly when it is "YY.04" with an even year of at least 24 |
| Distribution.DebianDigitsValidIff | app/Enums/Distribution.php:113-120 | a release of digits only is a supported Debian release exactly when it is 12 or more |
| Distribution.CodenamedReleasesSupported | app/Enums/Distribution.php:35-44 | every release the codename tables name is a supported release of its distribution and has its own codename |
| Distribution.UbuntuCodenamedSupported | app/Enums/Distribution.php:35-38 | every Ubuntu release with a codename is supported |
| Distribution.DebianCodenamedSupported | app/Enums/Distribution.php:40-44 | every Debian release with a codename is supported |
| Distribution.NonLtsUnsupported | app/Enums/Distribution.php:128-138 | a five-character release not ending in ".04" is never a supported Ubuntu release |
| SharedPath.WithoutSlashes | app/Console/Site/SiteSharedPullCommand.php:160 | the result holds no slash |
| SharedPath.CollapseSlashes | app/Console/Site/SiteSharedPullCommand.php:160 | collapsing never lengthens the text, keeps its first character and leaves no double slash |
| SharedPath.CollapseKeepsOthers | app/Console/Site/SiteSharedPullCommand.php:160 | collapsing removes slashes only: every other character survives, in order |
| SharedPath.CollapseFixesSingleSlashes | app/Console/Site/SiteSharedPullCommand.php:160 | a path without double slashes is left as it is |
| SharedPath.CollapseKeepsDotDot | app/Console/Site/SiteSharedPullCommand.php:160 | two adjacent dots survive the collapse |
| SharedPath.TrimKeepsDotDot | app/Console/Site/SiteSharedPullCommand.php:159 | two adjacent dots survive trimming |
| SharedPath.ReplaceBackslashInPlace | app/Console/Site/SiteSharedPullCommand.php:159 | replacing backslashes keeps the length and every other character in place |
| SharedPath.CollapseWithout | app/Console/Site/SiteSharedPullCommand.php:160 | collapsing adds no character |
| SharedPath.Cleaned | app/Console/Site/SiteSharedPullCommand.php:159-168 | the cleaned path is empty or does not start with a slash |
| SharedPath.CleanedNoBackslash | app/Console/Site/SiteSharedPullCommand.php:159-168 | cleaning leaves no backslash |
| SharedPath.CleanedNoDoubleSlash | app/Console/Site/SiteSharedPullCommand.php:159-168 | cleaning leaves no double slash |
| SharedPath.NormalizeRelativePath | app/Console/Site/SiteSharedPullCommand.php:157-177 | an accepted path is non-empty, relative, and free of backslashes, double slashes and ".." |
| SharedPath.DotDotRejected | app/Console/Site/SiteSharedPullCommand.php:170-174 | any path with two adjacent dots is refused |
| SharedPath.CleanPathAccepted | app/Console/Site/SiteSharedPullCommand.php:157-177 | a path that is already clean, relative and unpadded is accepted unchanged |
| SharedPath.BuildSharedPath | app/Console/Site/SiteSharedPullCommand.php:179-188 | an empty relative path gives the root; otherwise the root without trailing slashes, one slash, then the relative path without leading slashes |
| SharedPath.SharedPathJoinedOnce | app/Console/Site/SiteSharedPullCommand.php:179-188 | a normalised path is joined below the root with exactly one slash between them |
| SharedPath.RemoteFileExists | app/Console/Site/SiteSharedPullCommand.php:190-209 | exit code 0 means the file exists and 1 that it does not; any other code fails with the trimmed output, or with a message ending in the path when there was no output |
| SiteDeploy.ResolveKeepReleases | app/Console/Site/SiteDeployCommand.php:351-373 | a missing or blank option gives 5; a non-digit option is refused; a digit option is accepted exactly when its value is at least 1, and then gives that value |
| SiteDeploy.NumeralValue | app/Console/Site/SiteDeployCommand.php:365 | the decimal numeral of a number reads back as that number |
| SiteDeploy.KeepReleasesRoundTrip | app/Console/Site/SiteDeployCommand.php:351-373 | any positive count written in decimal is accepted as that count |
| SiteDeploy.HookNames | app/Console/Site/SiteDeployCommand.php:394-403 | the hook names of a status list, one per entry, in order |
| SiteDeploy.SetStatus | app/Console/Site/SiteDeployCommand.php:399 | a new hook is appended with its status; an existing hook keeps its position and takes the new status, and other entries are unchanged |
| SiteDeploy.GetHooksStatus | app/Console/Site/SiteDeployCommand.php:394-403 | the loop builds the status list the reference definition gives |
| SiteDeploy.SetStatusNames | app/Console/Site/SiteDeployCommand.php:399 | recording a hook keeps the names distinct and adds exactly that name |
| SiteDeploy.AppendedStatusNames | app/Console/Site/SiteDeployCommand.php:399 | appending a new hook keeps the names distinct and adds its name at the end |
| SiteDeploy.ReplacedStatusNames | app/Console/Site/SiteDeployCommand.php:399 | re-recording a known hook keeps the names and their order |
| SiteDeploy.HooksStatusNames | app/Console/Site/SiteDeployCommand.php:394-403 | the status list names exactly the expected hooks, each once |
| SiteDeploy.HooksStatusDistinct | app/Console/Site/SiteDeployCommand.php:394-403 | the status list names each hook once |
| SiteDeploy.HooksStatusNameSet | app/Console/Site/SiteDeployCommand.php:394-403 | the status list names exactly the expected hooks |
| SiteDeploy.SetStatusAgrees | app/Console/Site/SiteDeployCommand.php:399 | recording a hook with its own status keeps every status correct |
| SiteDeploy.HooksStatusValues | app/Console/Site/SiteDeployCommand.php:399 | each hook is "present" exactly when the repository provides it |
| SiteDeploy.HooksStatusOrder | app/Console/Site/SiteDeployCommand.php:398-400 | with distinct expected hooks the status list follows their order |
| SiteDeploy.MissingHooks | app/Console/Site/SiteDeployCommand.php:120 | the missing hooks are exactly the names recorded as missing, no more of them than entries |
| SiteDeploy.MissingHooksExact | app/Console/Site/SiteDeployCommand.php:118-121 | the missing hooks are exactly the expected hooks the repository does not provide |
| SiteDeploy.GatherSiteDeets | app/Console/Site/SiteDeployCommand.php:237-322 | a repository option that overrides a stored repository and fails validation ends the command with the validator's message, as does a failed prompt; the branch is then resolved the same way; the result succeeds exactly when neither field is rejected. A stored value is kept unless an option overrides it, one never stored is the prompt's answer, and the inventory needs an update exactly when either value was not stored or was overridden |
| ServerInstall.DeployKeySourceOf | app/Console/Server/ServerInstallCommand.php:214-250 | the two deploy-key options together are refused; otherwise either one decides, and without both the user is asked |
| ServerInstall.Php8Versions | app/Console/Server/ServerInstallCommand.php:494-497 | exactly the package keys that are strings starting with "8.", no more of them than packages |
| ServerInstall.OfferedVersions | app/Console/Server/ServerInstallCommand.php:485-504 | an empty package list and one without 8.x versions fail with their own errors; otherwise a non-empty list holding the 8.x versions, each as often as listed, newest first |
| ServerInstall.DefaultVersion | app/Console/Server/ServerInstallCommand.php:528 | the preselected version is offered: "8.5" when offered, otherwise the first one |
| ServerInstall.ValidatePhpVersionInput | app/Console/Server/ServerInstallCommand.php:719-730 | accepted exactly when the input is a string among the offered versions; a non-string gets its own error |
| ServerInstall.NothingInstalledIff | app/Console/Server/ServerInstallCommand.php:510-522 | nothing is recorded as installed exactly when no stored entry is a string, a number or an array with a version |
| ServerInstall.InstalledPhpVersions | app/Console/Server/ServerInstallCommand.php:510-522 | without a stored version list nothing is collected; otherwise the loop collects what the reference definition gives |
| ServerInstall.Without | app/Console/Server/ServerInstallCommand.php:573 | exactly the elements of the first list not in the second, no more of them than the first list holds |
| ServerInstall.Within | app/Console/Server/ServerInstallCommand.php:584 | exactly the elements of the first list that are in the second, no more of them than the first list holds |
| ServerInstall.ExtensionNames | app/Console/Server/ServerInstallCommand.php:552-564 | no more names than stored entries |
| ServerInstall.ExtensionChoice | app/Console/Server/ServerInstallCommand.php:566-584 | succeeds exactly when the version offers extensions including cli and fpm; the selectable ones are the offered ones without those two, the preselected ones the defaults among them; a missing required extension is named in the error |
| ServerInstall.CommaItems | app/Console/Server/ServerInstallCommand.php:606-613 | every piece is non-empty and holds no comma |
| ServerInstall.NonEmpty | app/Console/Server/ServerInstallCommand.php:611 | exactly the pieces that are not empty |
| ServerInstall.ValidatePhpExtensionsInput | app/Console/Server/ServerInstallCommand.php:740-768 | a value that is no list is refused; otherwise accepted exactly when some selected extension is not required and every one is required or selectable; the unknown ones are named in the error |
| ServerInstall.Dedup | app/Console/Server/ServerInstallCommand.php:617 | the same elements, each once, in order of first occurrence |
| ServerInstall.DedupPrefix | app/Console/Server/ServerInstallCommand.php:617 | deduplicating a longer list keeps the deduplicated prefix in front |
| ServerInstall.MergedExtensions | app/Console/Server/ServerInstallCommand.php:615-617 | exactly cli, fpm and the selection, each once |
| ServerInstall.MergedStartsWithRequired | app/Console/Server/ServerInstallCommand.php:617 | the merged list starts with cli and fpm |
| ServerInstall.AcceptedSelectionInstalled | app/Console/Server/ServerInstallCommand.php:598-617 | an accepted selection installs exactly cli, fpm and the selected extensions, all of them selectable or required |
| ServerInstall.DecideSetAsDefault | app/Console/Server/ServerInstallCommand.php:623-649 | the user is asked exactly when PHP is already installed and the version is not already the default; otherwise the version becomes the default |
| ServerInstall.StoredDefaultRecognised | app/Console/Server/ServerInstallCommand.php:630-633 | a default stored as the same string, or as the integer whose numeral the version is, is recognised |
| DnsCommand.ValuePlaceholder | app/Traits/DnsCommandTrait.php:26-34 | the placeholder is non-empty exactly for A, AAAA and CNAME, and a CNAME placeholder is a host name below example.com |
| DnsCommand.ValueHint | app/Traits/DnsCommandTrait.php:39-47 | the hint is never empty, and is "Record value" exactly for types other than A, AAAA and CNAME |
| DnsCommand.Prefix | app/Traits/DnsCommandTrait.php:91 | a prefix of the text; a non-negative length takes at most that many characters, a negative one drops that many from the end |
| DnsCommand.TruncateValue | app/Traits/DnsCommandTrait.php:88-95 | a value within the limit is unchanged; a longer one becomes its first limit-minus-3 characters followed by "..." |
| DnsCommand.TruncatedLength | app/Traits/DnsCommandTrait.php:90-92 | for a limit of at least 3, a longer value becomes exactly the limit long: its first limit-minus-3 characters and "..." |
| DnsCommand.ListedValueFits | app/Traits/DnsCommandTrait.php:88-95 | with the default limit of 60 a shown value never exceeds 60 characters, and it is shown whole exactly when it fits |
| LogHighlight.HighlightLine | app/Traits/LogHighlightingTrait.php:31-50 | a line without a line feed stays a single line |
| LogHighlight.HighlightAll | app/Traits/LogHighlightingTrait.php:31-51 | one output line per input line, each highlighted on its own |
| LogHighlight.HighlightErrors | app/Traits/LogHighlightingTrait.php:15-54 | the content split at line feeds, each line highlighted, joined again |
| LogHighlight.HighlightedLines | app/Traits/LogHighlightingTrait.php:15-54 | the output has as many lines as the input, and each line is wrapped in red exactly when its lower-cased form holds a keyword or it holds a whole-word 500, 502, 503 or 504, and is unchanged otherwise |
| LogHighlight.HighlightReversible | app/Traits/LogHighlightingTrait.php:15-54 | removing the red tags where they were added gives back the original content |
| LogHighlight.Unhighlight | app/Traits/LogHighlightingTrait.php:46-50 | one line per output line |
| LogHighlight.UnhighlightAll | app/Traits/LogHighlightingTrait.php:46-50 | removing the added tags line by line gives back the input lines |
| LogHighlight.StatusFound | app/Traits/LogHighlightingTrait.php:26 | a gateway status between non-word characters matches the status pattern |
| LogHighlight.StatusLineHighlighted | app/Traits/LogHighlightingTrait.php:42-47 | a line naming a gateway status as a whole word is highlighted even without a keyword |
| LogHighlight.EmbeddedStatusIgnored | app/Traits/LogHighlightingTrait.php:26 | a status code inside a longer number, as in 5000 or 1500, does not match |
| CommandDiscovery.SliceDropLast4 | app/Services/CommandDiscoveryService.php:96 | the text from the start up to its last four characters, or nothing when those overlap the start |
| CommandDiscovery.FilePathToClassName | app/Services/CommandDiscoveryService.php:88-100 | a class exactly for paths below the console directory; it starts with the namespace prefix and holds no slash after it |
| CommandDiscovery.ReplaceBack | app/Services/CommandDiscoveryService.php:97 | turning backslashes back into slashes undoes the conversion of a path without backslashes |
| CommandDiscovery.ClassNameRoundTrip | app/Services/CommandDiscoveryService.php:88-100 | a file below the console directory maps to the prefix and its relative path with backslashes, from which the relative path can be read back |
| CommandDiscovery.DiscoveredSpec | app/Services/CommandDiscoveryService.php:51-78 | every kept class starts with the namespace prefix and passes the command check |
| CommandDiscovery.Discover | app/Services/CommandDiscoveryService.php:37-83 | without a console directory nothing; otherwise exactly the kept classes of the command files, each as often as found, sorted byte-wise |
| CommandDiscovery.DiscoveredAreCommands | app/Services/CommandDiscoveryService.php:37-83 | every discovered command is a valid class in the console namespace |
| CommandDiscovery.OnlyCommandFiles | app/Services/CommandDiscoveryService.php:56-58 | a file not named "*Command.php" never yields a command |
| Sorting.InsertBy | app/Console/Server/ServerInstallCommand.php:498 | inserting keeps every element and adds the new one, and keeps a sorted list sorted |
| Sorting.SortBy | app/Services/CommandDiscoveryService.php:80 | the result is sorted and a permutation of the input |
| Sorting.LexOrder | app/Services/CommandDiscoveryService.php:80 | byte-wise order is total, transitive and antisymmetric on strings |
| PhpStrings.JoinSplit | app/Traits/LogHighlightingTrait.php:28-53 | joining the pieces of a split at line feeds gives the content back |
| PhpStrings.SplitJoin | app/Traits/LogHighlightingTrait.php:28-53 | splitting joined pieces that hold no line feed gives the pieces back |
| PhpStrings.DigitsNumeric | app/Traits/DoDnsTrait.php:192-196 | a string of digits is numeric, and the integer cast reads all of its digits |
| PhpStrings.TrimEmptyIff | app/Traits/DoDnsTrait.php:168-179 | trimming gives the empty string exactly for blank strings |
| PhpValues.Coalesce | app/Builders/SiteBuilder.php:67-74 | the stored value under the key, or the default; a missing key gives the default |
| PhpValues.LookupFinds | app/Repositories/SiteRepository.php:109 | a lookup finds a value exactly when some entry has the key, and the value found is stored under it |

## Left out

- Console I/O: prompts, spinners, banners, `nay`/`info` output and command replay. Each command's `execute`, `configure` and prompt flow is left out apart from the pure parts named above. Prompt answers and option values are parameters (`answerRepo`, `answer`, `cliRepo`, the validator inputs). In `gatherSiteDeets` the validators `validateSiteRepo` and `validateSiteBranch` are parameters, and the validated prompt's outcome is a `Result` (`answerRepo`, `answerBranch`); the defaults from `detectRemoteUrl` and `detectCurrentBranch` only pre-fill the prompt and are not modelled.
- SSH, remote playbooks and the filesystem. `remoteFileExists` takes the exit code and output of `test -f` as parameters. Command discovery takes the directory listing, the real paths and the reflection check `isValidCommandClass` as parameters.
- Provider SDKs and HTTP clients. Each provider is a class holding the zone's records, or the account's zones or domains. DoDns.DoDomainRecords and DoDomains.DoDomainResolver also carry a `failure` field that stands for any transport or API error. Route53Dns.HostedZone, Route53Zones.ZoneService, CloudflareDns.CloudflareZone and CfZones.ZoneResolver have no error path: the SDK exceptions they wrap into "Failed to …" runtime errors are not modelled, and only their not-found errors are. Authentication, rate limits and timeouts are not modelled.
- The inventory file. `InventoryService` is the `saved` field of the repository; reading and writing YAML is not modelled.
- Concurrency. Every run is sequential, so the race between two concurrent `setRecord` calls is outside the model.
- Floating-point values. Floats, objects and resources are the one `Other` value, which no modelled check accepts. A float stored as a PHP default or an installed PHP version is dropped.
- `is_numeric` exponent forms ("1e3") are treated as non-numeric, and the `(int)` cast reads leading digits without 64-bit saturation.
- AwsDnsInput.ValidateAwsTtl: does not model PHP's 64-bit integer limit on the `(int)` cast, because a saturated value lies outside 1..2147483647 just as the unbounded one does, so the verdict is the same.
- `filter_var($d, FILTER_VALIDATE_DOMAIN, FILTER_FLAG_HOSTNAME)` is modelled as the LDH-label syntax. The length limits are checked separately, as the code also does.
- `version_compare` is modelled for dotted numeric versions only. Suffixes such as "-rc1" are not modelled.
- `SORT_NATURAL` is an ordering parameter of `OfferedVersions`, required to be a total preorder. `sort()` on class names is byte-wise order.
- `in_array` without the strict flag, at `app/Console/Server/ServerInstallCommand.php:528`, is treated as a strict comparison. Only the string "8.5" is compared, and the versions are strings.
- `asort` orders the Route53 zone options by name. The options map keeps no order; the order is modelled by Route53Zones.ZoneEntries, the options array in key order, and Route53Zones.FirstByName, the first match once `asort` has sorted it. Names are compared byte by byte; PHP's comparison of two numeric strings as numbers is not modelled. The DigitalOcean domain options map each name to itself, so no lookup depends on their order, and their display order is left out.
- The effect of a Route53 DELETE on the zone's sets is not modelled; Route53Dns.DeleteChange states the change that is sent.
- String keys that PHP turns into integer keys, such as a hook named "123", are kept as strings.
- `strlen` and `substr` count characters, and each character stands for one byte. `strtoupper` and `strtolower` change ASCII letters only.
- SiteRepository.HydrateSite: states only that a hydrated site builds. What it holds is stated by Builders.StoredSite and the round-trip lemmas.
- SiteRepository.OnServer: bounds the length only. Its contents are stated by SiteRepository.OnServerExactly.
- ServerInstall.ExtensionNames: bounds the length only. Entries that are not strings are dropped, because the code annotates the list as strings.
- LogHighlight.HighlightLine: states only that a line stays a line. The wrapping is stated by LogHighlight.HighlightedLines.
- `confirmDnsDeletion` is interactive (typed name and confirmation prompt) and is left out.
