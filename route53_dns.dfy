/**
 * Route53 DNS records: the wire formatting of record values, the paginated listing of a
 * hosted zone's record sets, the exact-match search and the UPSERT/DELETE change batches.
 *
 * The `preg_match` calls of the formatters are modelled by following PCRE's greedy
 * backtracking for each pattern: `\d+` and `\s+` runs that are followed by a character of
 * another class are forced to be maximal, and only the last `\s+(.+)$` of the MX and SRV
 * patterns can give characters back.
 */
module Route53Dns {
  import opened Collections
  import opened Wrappers
  import opened PhpStrings

  /** The record types the service supports. */
  const RecordTypes: seq<string> := ["A", "AAAA", "CNAME", "MX", "TXT", "NS", "SRV", "CAA", "PTR"]

  /** The TTL reported for a standard record set that carries none. */
  const DefaultTtl: int := 300

  /** The MX priority given to a bare host name. */
  const DefaultMxPriority: string := "10"

  //
  // Trailing dots
  // ----

  /** A fully qualified name: appends one "." when the name does not already end with one. */
  function EnsureTrailingDot(name: string): (r: string)
    ensures EndsWith(r, ".")
    ensures r == name <==> EndsWith(name, ".")
    ensures r == name || r == name + "."
  {
    if EndsWith(name, ".") then name else name + "."
  }

  lemma EnsureTrailingDotIdempotent(name: string)
    ensures EnsureTrailingDot(EnsureTrailingDot(name)) == EnsureTrailingDot(name)
  {
  }

  /** Stripping the trailing dots of a qualified name gives back the name it was made from. */
  lemma StripQualified(name: string)
    ensures RTrimChar(EnsureTrailingDot(name), '.') == RTrimChar(name, '.')
  {
    if !EndsWith(name, ".") {
      var q := name + ".";
      assert q[..|q| - 1] == name;
    }
  }

  /** A Route53 name (one trailing dot) is restored by qualifying its stripped form. */
  lemma QualifyStripped(fqdn: string)
    requires EndsWith(fqdn, ".") && !EndsWith(fqdn, "..")
    ensures EnsureTrailingDot(RTrimChar(fqdn, '.')) == fqdn
  {
    var n := fqdn[..|fqdn| - 1];
    assert RTrimChar(fqdn, '.') == RTrimChar(n, '.');
    if |n| > 0 {
      assert fqdn[|fqdn| - 2..] == ['.', '.'] || n[|n| - 1] != '.';
    }
    assert RTrimChar(n, '.') == n;
    assert n + "." == fqdn;
  }

  //
  // TXT
  // ----

  predicate IsQuoted(v: string) {
    StartsWith(v, "\"") && EndsWith(v, "\"")
  }

  /** Every `"` becomes `\"`. */
  function EscapeQuotes(v: string): (r: string)
    ensures |r| == 0 || r[0] != '"'
    ensures |v| == 0 <==> |r| == 0
  {
    ReplaceChar(v, '"', "\\\"")
  }

  /** TXT values travel quoted: an already quoted value is kept, any other is escaped and wrapped. */
  function FormatTxt(v: string): (r: string)
    ensures IsQuoted(r)
    ensures IsQuoted(v) ==> r == v
    ensures !IsQuoted(v) ==> |r| == |EscapeQuotes(v)| + 2 && r[1..|r| - 1] == EscapeQuotes(v)
  {
    if IsQuoted(v) then v
    else
      var r := "\"" + EscapeQuotes(v) + "\"";
      assert r[1..|r| - 1] == EscapeQuotes(v);
      r
  }

  /** Reading a quoted TXT value back: `\"` stands for `"`, every other character for itself. */
  function UnescapeQuotes(w: string): string
    decreases |w|
  {
    if |w| >= 2 && w[0] == '\\' && w[1] == '"' then "\"" + UnescapeQuotes(w[2..])
    else if |w| == 0 then ""
    else [w[0]] + UnescapeQuotes(w[1..])
  }

  /** The text a TXT wire value stands for. */
  function TxtText(w: string): string
  {
    if |w| >= 2 && IsQuoted(w) then UnescapeQuotes(w[1..|w| - 1]) else w
  }

  lemma {:induction false} UnescapeEscape(v: string)
    ensures UnescapeQuotes(EscapeQuotes(v)) == v
    decreases |v|
  {
    if |v| > 0 {
      UnescapeEscape(v[1..]);
      var rest := EscapeQuotes(v[1..]);
      assert EscapeQuotes(v) == (if v[0] == '"' then "\\\"" else [v[0]]) + rest;
      if v[0] == '"' {
        assert EscapeQuotes(v)[2..] == rest;
      } else {
        assert EscapeQuotes(v)[1..] == rest;
      }
      assert v == [v[0]] + v[1..];
    }
  }

  /** Quoting a TXT value loses nothing: the wire value reads back as the original text. */
  lemma TxtRoundTrip(v: string)
    requires !IsQuoted(v)
    ensures TxtText(FormatTxt(v)) == v
  {
    UnescapeEscape(v);
  }

  /** Formatting a TXT value twice is formatting it once. */
  lemma FormatTxtIdempotent(v: string)
    ensures FormatTxt(FormatTxt(v)) == FormatTxt(v)
  {
  }

  //
  // The trailing `\s+(.+)$` shared by the MX and SRV patterns
  // ----

  /** The index of the first line feed in `x`, or |x| when there is none. */
  function LineEnd(x: string): (e: nat)
    ensures e <= |x|
    ensures forall i :: 0 <= i < e ==> x[i] != '\n'
    ensures e == |x| || x[e] == '\n'
    decreases |x|
  {
    if |x| == 0 || x[0] == '\n' then 0 else 1 + LineEnd(x[1..])
  }

  /** `(.+)$` matched at the start of `x`: `.` stops at a line feed and `$` accepts a final one. */
  function DotLine(x: string): (r: Option<string>)
    ensures r.Some? ==> |r.value| > 0 && '\n' !in r.value && (x == r.value || x == r.value + "\n")
  {
    var e := LineEnd(x);
    if e > 0 && (e == |x| || e == |x| - 1) then
      assert e == |x| - 1 ==> x == x[..e] + "\n";
      Some(x[..e])
    else None
  }

  lemma DotLineNoNewline(x: string)
    requires |x| > 0 && '\n' !in x
    ensures DotLine(x) == Some(x)
  {
    assert forall i :: 0 <= i < |x| ==> x[i] != '\n' by {
      forall i | 0 <= i < |x| ensures x[i] != '\n' { assert x[i] in x; }
    }
  }

  /** `\s+(.+)$` where `x[..k]` is whitespace: the longest whitespace run is tried first. */
  function SpacesThenLine(x: string, k: nat): Option<string>
    requires 1 <= k <= |x|
    decreases k
  {
    match DotLine(x[k..])
    case Some(t) => Some(t)
    case None => if k == 1 then None else SpacesThenLine(x, k - 1)
  }

  /** `\s+(.+)$` at the start of `x`. */
  function SpaceThenLine(x: string): Option<string>
  {
    var w := SpacePrefixLength(x);
    if w == 0 then None else SpacesThenLine(x, w)
  }

  lemma SpaceThenLineOf(ws: string, t: string)
    requires |ws| > 0 && forall i :: 0 <= i < |ws| ==> IsRegexSpace(ws[i])
    requires |t| > 0 && !IsRegexSpace(t[0]) && '\n' !in t
    ensures SpaceThenLine(ws + t) == Some(t)
  {
    var x := ws + t;
    SpacePrefixOf(ws, t);
    assert x[|ws|..] == t;
    DotLineNoNewline(t);
  }

  /** When the text is free of line feeds and ends in a non-space, `(.+)` is the rest after all the spaces. */
  lemma SpaceThenLineNoNewline(x: string)
    requires '\n' !in x && |x| > 0 && !IsRegexSpace(x[|x| - 1]) && IsRegexSpace(x[0])
    ensures var w := SpacePrefixLength(x);
      w < |x| && SpaceThenLine(x) == Some(x[w..]) && !IsRegexSpace(x[w])
  {
    var w := SpacePrefixLength(x);
    assert IsRegexSpace(x[w - 1]);
    assert w < |x|;
    var t := x[w..];
    assert forall c :: c in t ==> c in x by {
      forall c | c in t ensures c in x {
        var i :| 0 <= i < |t| && t[i] == c;
        assert x[w + i] == c;
      }
    }
    DotLineNoNewline(t);
  }

  predicate AllSpaces(ws: string) {
    |ws| > 0 && forall i :: 0 <= i < |ws| ==> IsRegexSpace(ws[i])
  }

  /** A host part the patterns capture whole: non-empty, one line, not starting with a space. */
  predicate PlainField(t: string) {
    |t| > 0 && !IsRegexSpace(t[0]) && '\n' !in t
  }

  //
  // `\d+\s+` and `\d+\s+(.+)$`
  // ----

  /** One line with no whitespace at its end: what the idempotence results need of a value. */
  predicate OneLineTrimmedEnd(x: string) {
    '\n' !in x && (|x| == 0 || !IsRegexSpace(x[|x| - 1]))
  }

  lemma SuffixOneLine(x: string, k: nat)
    requires OneLineTrimmedEnd(x) && k <= |x|
    ensures OneLineTrimmedEnd(x[k..])
  {
    assert forall c :: c in x[k..] ==> c in x by {
      forall c | c in x[k..] ensures c in x {
        var i :| 0 <= i < |x[k..]| && x[k..][i] == c;
        assert x[k + i] == c;
      }
    }
  }

  /** `\d+\s+` at the start of `x`: the digits and the text after the whitespace run. */
  function DigitsThenSpaces(x: string): (r: Option<(string, string)>)
    ensures r.Some? ==> IsDigits(r.value.0) && |r.value.1| < |x| && r.value.1 == x[|x| - |r.value.1|..]
  {
    var d := DigitPrefixLength(x);
    var w := SpacePrefixLength(x[d..]);
    if d == 0 || w == 0 then None
    else
      assert x[d..][w..] == x[d + w..];
      Some((x[..d], x[d + w..]))
  }

  lemma DigitsThenSpacesOf(p: string, ws: string, rest: string)
    requires IsDigits(p) && AllSpaces(ws) && (|rest| == 0 || !IsRegexSpace(rest[0]))
    ensures DigitsThenSpaces(p + ws + rest) == Some((p, rest))
  {
    var x := p + ws + rest;
    assert x == p + (ws + rest);
    DigitPrefixOf(p, ws + rest);
    assert x[|p|..] == ws + rest;
    SpacePrefixOf(ws, rest);
    assert x[|p| + |ws|..] == rest;
  }

  /** `^(\d+)\s+(.+)$`: the digits and the rest of the line, when `x` matches. */
  function DigitsThenLine(x: string): (r: Option<(string, string)>)
    ensures r.Some? ==> IsDigits(r.value.0)
  {
    var d := DigitPrefixLength(x);
    if d == 0 then None
    else
      match SpaceThenLine(x[d..])
      case Some(h) => Some((x[..d], h))
      case None => None
  }

  /** "digits whitespace field" has its digits and field read off exactly. */
  lemma DigitsThenLineOf(p: string, ws: string, h: string)
    requires IsDigits(p) && AllSpaces(ws) && PlainField(h)
    ensures DigitsThenLine(p + ws + h) == Some((p, h))
  {
    var v := p + ws + h;
    DigitPrefixOf(p, ws + h);
    assert v == p + (ws + h);
    assert v[|p|..] == ws + h;
    SpaceThenLineOf(ws, h);
  }

  /** On one line that does not end in whitespace, the captured field is a plain field. */
  lemma DigitsThenLinePlain(x: string)
    requires OneLineTrimmedEnd(x) && DigitsThenLine(x).Some?
    ensures PlainField(DigitsThenLine(x).value.1)
  {
    var d := DigitPrefixLength(x);
    var rest := x[d..];
    SuffixOneLine(x, d);
    assert SpacePrefixLength(rest) > 0;
    SpaceThenLineNoNewline(rest);
    SuffixOneLine(rest, SpacePrefixLength(rest));
  }

  //
  // MX
  // ----

  /** `^(\d+)\s+(.+)$`: the priority digits and the host, when the value matches. */
  function MxMatch(v: string): Option<(string, string)>
  {
    DigitsThenLine(v)
  }

  /** "priority host": the digits, one space and the host. */
  function PriorityAndRest(p: string, rest: string): (r: string)
    requires IsDigits(p)
    ensures DigitPrefixLength(r) == |p| && |p| < |r| && r[|p|] == ' '
    ensures EndsWith(rest, ".") ==> EndsWith(r, ".")
  {
    var r := p + " " + rest;
    DigitPrefixOf(p, " " + rest);
    assert r == p + (" " + rest);
    assert r[|r| - |rest|..] == rest;
    r
  }

  /** MX values are "priority host.": the host is qualified and a missing priority becomes 10. */
  function FormatMx(v: string): (r: string)
    ensures var d := DigitPrefixLength(r); 0 < d < |r| && r[d] == ' ' && EndsWith(r, ".")
  {
    match MxMatch(v)
    case Some((p, h)) => PriorityAndRest(p, EnsureTrailingDot(h))
    case None =>
      assert IsDigits(DefaultMxPriority) by {
        assert DefaultMxPriority[0] == '1' && DefaultMxPriority[1] == '0';
      }
      PriorityAndRest(DefaultMxPriority, EnsureTrailingDot(v))
  }

  /** "digits whitespace host" becomes "digits host." with a single space. */
  lemma FormatMxWithPriority(p: string, ws: string, h: string)
    requires IsDigits(p) && AllSpaces(ws) && PlainField(h)
    ensures FormatMx(p + ws + h) == p + " " + EnsureTrailingDot(h)
  {
    DigitsThenLineOf(p, ws, h);
  }

  /** A value without whitespace is a bare host: it gets the default priority 10. */
  lemma FormatMxBareHost(h: string)
    requires forall i :: 0 <= i < |h| ==> !IsRegexSpace(h[i])
    ensures FormatMx(h) == "10 " + EnsureTrailingDot(h)
  {
    var d := DigitPrefixLength(h);
    assert |h[d..]| == 0 || !IsRegexSpace(h[d..][0]);
    assert SpacePrefixLength(h[d..]) == 0;
    assert MxMatch(h) == None;
    assert "10 " == DefaultMxPriority + " ";
  }

  /** An already formatted "priority host." value is left unchanged. */
  lemma FormatMxFormatted(p: string, h: string)
    requires IsDigits(p) && PlainField(h) && EndsWith(h, ".")
    ensures FormatMx(p + " " + h) == p + " " + h
  {
    DigitsThenLineOf(p, " ", h);
  }

  /**
   * Formatting an MX value twice is formatting it once, for values on one line that neither
   * start nor end with whitespace.
   */
  lemma FormatMxIdempotent(v: string)
    requires OneLineTrimmedEnd(v) && (|v| == 0 || !IsRegexSpace(v[0]))
    ensures FormatMx(FormatMx(v)) == FormatMx(v)
  {
    match MxMatch(v)
    case Some((p, h)) =>
      DigitsThenLinePlain(v);
      DigitsThenLineOf(p, " ", EnsureTrailingDot(h));
    case None =>
      DigitsThenLineOf(DefaultMxPriority, " ", EnsureTrailingDot(v));
  }

  /** `(.+)` takes the last of two trailing spaces: "10  " reads as priority 10 and host " ". */
  lemma MxMatchTwoTrailingSpaces(p: string, c: char)
    requires IsDigits(p) && IsRegexSpace(c) && c != '\n'
    ensures MxMatch(p + [c, c]) == Some((p, [c]))
  {
    var sp := [c, c];
    SpacePrefixOf(sp, []);
    assert sp + [] == sp;
    assert sp[2..] == [] && sp[1..] == [c];
    assert DotLine(sp[2..]) == None;
    DotLineNoNewline([c]);
    assert SpacesThenLine(sp, 2) == Some([c]);
    DigitPrefixOf(p, sp);
    var v := p + sp;
    assert v[|p|..] == sp && v[..|p|] == p;
  }

  /**
   * Without the side condition the MX formatting is not idempotent: a value ending in two
   * whitespace characters, such as "10  ", gives up one of them to `(.+)` on each pass.
   */
  lemma FormatMxTrailingSpaceNotIdempotent(p: string, c: char)
    requires IsDigits(p) && IsRegexSpace(c) && c != '\n'
    ensures FormatMx(p + [c, c]) == p + " " + [c] + "."
    ensures FormatMx(FormatMx(p + [c, c])) == p + " " + "." != FormatMx(p + [c, c])
  {
    FormatMxTwoTrailingSpaces(p, c);
    FormatMxSpaceHost(p, c);
    assert |p + " " + "."| < |p + " " + [c] + "."|;
  }

  /** The first pass keeps one of the two trailing whitespace characters as the host. */
  lemma FormatMxTwoTrailingSpaces(p: string, c: char)
    requires IsDigits(p) && IsRegexSpace(c) && c != '\n'
    ensures FormatMx(p + [c, c]) == p + " " + [c] + "."
  {
    MxMatchTwoTrailingSpaces(p, c);
    assert EnsureTrailingDot([c]) == [c] + ".";
    assert p + " " + ([c] + ".") == p + " " + [c] + ".";
  }

  /** The second pass reads the whitespace as part of the separator and keeps only the dot. */
  lemma FormatMxSpaceHost(p: string, c: char)
    requires IsDigits(p) && IsRegexSpace(c) && c != '\n'
    ensures FormatMx(p + " " + [c] + ".") == p + " " + "."
  {
    var once := p + " " + [c] + ".";
    var ws := [' ', c];
    assert AllSpaces(ws);
    assert PlainField(".");
    assert once == p + ws + "." by {
      assert p + " " + [c] == p + ws;
    }
    DigitsThenLineOf(p, ws, ".");
    assert MxMatch(once) == Some((p, "."));
  }

  //
  // SRV
  // ----

  /** `^(\d+)\s+(\d+)\s+(\d+)\s+(.+)$`: priority, weight, port and target, when the value matches. */
  function SrvMatch(v: string): Option<(string, string, string, string)>
  {
    match DigitsThenSpaces(v)
    case None => None
    case Some((p, r1)) =>
      match DigitsThenSpaces(r1)
      case None => None
      case Some((w, r2)) =>
        match DigitsThenLine(r2)
        case None => None
        case Some((port, t)) => Some((p, w, port, t))
  }

  /** SRV values are "priority weight port target.": only a four-field value is touched. */
  function FormatSrv(v: string): (r: string)
    ensures SrvMatch(v).None? ==> r == v
    ensures SrvMatch(v).Some? ==> EndsWith(r, ".")
  {
    match SrvMatch(v)
    case Some((p, w, port, t)) => SrvFields(p, w, port, EnsureTrailingDot(t))
    case None => v
  }

  /** The four SRV fields separated by single spaces. */
  function SrvFields(p: string, w: string, port: string, target: string): (r: string)
    ensures EndsWith(target, ".") ==> EndsWith(r, ".")
  {
    var r := p + " " + w + " " + port + " " + target;
    assert r[|r| - |target|..] == target;
    r
  }

  /** A four-field value has its fields read off exactly. */
  lemma SrvMatchOf(p: string, ws1: string, w: string, ws2: string, port: string, ws3: string, t: string)
    requires IsDigits(p) && IsDigits(w) && IsDigits(port)
    requires AllSpaces(ws1) && AllSpaces(ws2) && AllSpaces(ws3) && PlainField(t)
    ensures SrvMatch(p + ws1 + w + ws2 + port + ws3 + t) == Some((p, w, port, t))
  {
    var r2 := port + ws3 + t;
    var r1 := w + ws2 + r2;
    assert p + ws1 + w + ws2 + port + ws3 + t == p + ws1 + r1;
    DigitsThenSpacesOf(p, ws1, r1);
    DigitsThenSpacesOf(w, ws2, r2);
    DigitsThenLineOf(port, ws3, t);
  }

  /** A four-field value has only its target qualified, with single spaces between the fields. */
  lemma FormatSrvFourFields(p: string, ws1: string, w: string, ws2: string, port: string, ws3: string, t: string)
    requires IsDigits(p) && IsDigits(w) && IsDigits(port)
    requires AllSpaces(ws1) && AllSpaces(ws2) && AllSpaces(ws3) && PlainField(t)
    ensures FormatSrv(p + ws1 + w + ws2 + port + ws3 + t) == SrvFields(p, w, port, EnsureTrailingDot(t))
  {
    SrvMatchOf(p, ws1, w, ws2, port, ws3, t);
  }

  /** A value that does not start with a digit is not an SRV four-field value and is kept. */
  lemma FormatSrvOtherShape(v: string)
    requires |v| == 0 || !IsDigit(v[0])
    ensures FormatSrv(v) == v
  {
  }

  /** The fields a one-line SRV value is read into: three digit runs and a plain target. */
  lemma SrvMatchParts(v: string)
    requires OneLineTrimmedEnd(v) && SrvMatch(v).Some?
    ensures IsDigits(SrvMatch(v).value.0) && IsDigits(SrvMatch(v).value.1) && IsDigits(SrvMatch(v).value.2)
    ensures PlainField(SrvMatch(v).value.3)
  {
    var (p, r1) := DigitsThenSpaces(v).value;
    var (w, r2) := DigitsThenSpaces(r1).value;
    SuffixOneLine(v, |v| - |r1|);
    SuffixOneLine(r1, |r1| - |r2|);
    DigitsThenLinePlain(r2);
  }

  /** Formatting an SRV value twice is formatting it once, for one-line values not ending in whitespace. */
  lemma FormatSrvIdempotent(v: string)
    requires OneLineTrimmedEnd(v)
    ensures FormatSrv(FormatSrv(v)) == FormatSrv(v)
  {
    if SrvMatch(v).Some? {
      var (p, w, port, t) := SrvMatch(v).value;
      SrvMatchParts(v);
      TrailingDotPlain(t);
      SrvFieldsFixed(p, w, port, EnsureTrailingDot(t));
    }
  }

  /** Qualifying a plain field keeps it plain. */
  lemma TrailingDotPlain(t: string)
    requires PlainField(t)
    ensures PlainField(EnsureTrailingDot(t))
  {
    if !EndsWith(t, ".") {
      assert EnsureTrailingDot(t)[0] == t[0];
      assert '\n' !in t + ".";
    }
  }

  /** Four fields already separated by single spaces, with a qualified target, are kept. */
  lemma SrvFieldsFixed(p: string, w: string, port: string, target: string)
    requires IsDigits(p) && IsDigits(w) && IsDigits(port) && PlainField(target) && EndsWith(target, ".")
    ensures FormatSrv(SrvFields(p, w, port, target)) == SrvFields(p, w, port, target)
  {
    SrvMatchOf(p, " ", w, " ", port, " ", target);
    assert EnsureTrailingDot(target) == target;
  }

  //
  // CAA
  // ----

  /** `".+"`: a double-quoted text of at least one character on one line. */
  predicate QuotedLine(x: string) {
    |x| >= 3 && x[0] == '"' && x[|x| - 1] == '"'
    && forall i :: 0 < i < |x| - 1 ==> x[i] != '\n'
  }

  /** `tag\s+".+"$` at the start of `t`. */
  predicate TagThenQuoted(t: string, tag: string) {
    StartsWith(t, tag)
    && var u := t[|tag|..];
    var w := SpacePrefixLength(u);
    w > 0 && QuotedLine(Chomp(u[w..]))
  }

  /** `^\d+\s+(issue|issuewild|iodef)\s+".+"$`: a complete CAA value (section 4 of RFC 8659). */
  predicate CaaComplete(v: string) {
    match DigitsThenSpaces(v)
    case None => false
    case Some((_, t)) => TagThenQuoted(t, "issue") || TagThenQuoted(t, "issuewild") || TagThenQuoted(t, "iodef")
  }

  /** The `issue` entry made for a bare domain. */
  function CaaIssue(domain: string): string {
    "0 issue \"" + domain + "\""
  }

  /** A CAA value is either kept or, when it is a bare domain without spaces, made an `issue` entry. */
  function FormatCaa(v: string): (r: string)
    ensures CaaComplete(v) ==> r == v
    ensures !CaaComplete(v) && ' ' !in v ==> r == CaaIssue(v)
    ensures ' ' in v ==> r == v
  {
    if CaaComplete(v) then v
    else if ' ' !in v then CaaIssue(v)
    else v
  }

  /** The synthesized `0 issue "<domain>"` entry is itself a complete CAA value. */
  lemma CaaIssueComplete(v: string)
    requires |v| > 0 && '\n' !in v
    ensures CaaComplete(CaaIssue(v))
  {
    var t := "issue" + (" " + ("\"" + v + "\""));
    assert CaaIssue(v) == "0" + " " + t;
    DigitsThenSpacesOf("0", " ", t);
    IssueTagQuoted(v);
  }

  /** `issue "<domain>"` is the issue tag followed by a quoted line. */
  lemma IssueTagQuoted(v: string)
    requires |v| > 0 && '\n' !in v
    ensures TagThenQuoted("issue" + (" " + ("\"" + v + "\"")), "issue")
  {
    var q := "\"" + v + "\"";
    var t := "issue" + (" " + q);
    assert t[..5] == "issue";
    assert t[5..] == " " + q;
    SpacePrefixOf(" ", q);
    assert (" " + q)[1..] == q;
    assert Chomp(q) == q;
    forall i | 0 < i < |q| - 1 ensures q[i] != '\n' {
      assert q[i] == v[i - 1];
    }
  }

  /** A domain without spaces is formatted into a complete CAA value. */
  lemma FormatCaaBareDomain(v: string)
    requires |v| > 0 && '\n' !in v && ' ' !in v
    ensures CaaComplete(FormatCaa(v))
  {
    if !CaaComplete(v) {
      CaaIssueComplete(v);
    }
  }

  /** Formatting a CAA value twice is formatting it once. */
  lemma FormatCaaIdempotent(v: string)
    ensures FormatCaa(FormatCaa(v)) == FormatCaa(v)
  {
    var r := FormatCaa(v);
    if r != v {
      assert r[1] == ' ';
    }
  }
  //
  // Dispatch by record type
  // ----

  /** The wire value Route53 is sent for a record of type `rtype`. */
  function FormatRecordValue(rtype: string, v: string): (r: string)
    ensures rtype in {"CNAME", "NS", "PTR"} ==> r == EnsureTrailingDot(v)
    ensures rtype !in {"TXT", "CNAME", "NS", "PTR", "MX", "SRV", "CAA"} ==> r == v
  {
    match rtype
    case "TXT" => FormatTxt(v)
    case "CNAME" => EnsureTrailingDot(v)
    case "NS" => EnsureTrailingDot(v)
    case "PTR" => EnsureTrailingDot(v)
    case "MX" => FormatMx(v)
    case "SRV" => FormatSrv(v)
    case "CAA" => FormatCaa(v)
    case _ => v
  }

  /**
   * Formatting a value twice is formatting it once; MX and SRV values must be on one line
   * and free of surrounding whitespace.
   */
  lemma FormatRecordValueIdempotent(rtype: string, v: string)
    requires rtype == "MX" ==> OneLineTrimmedEnd(v) && (|v| == 0 || !IsRegexSpace(v[0]))
    requires rtype == "SRV" ==> OneLineTrimmedEnd(v)
    ensures FormatRecordValue(rtype, FormatRecordValue(rtype, v)) == FormatRecordValue(rtype, v)
  {
    match rtype
    case "TXT" => FormatTxtIdempotent(v);
    case "MX" => FormatMxIdempotent(v);
    case "SRV" => FormatSrvIdempotent(v);
    case "CAA" => FormatCaaIdempotent(v);
    case _ =>
  }

  //
  // Record sets and their listing
  // ----

  /**
   * A resource record set as the API returns it.  `alias` holds the alias target's DNS name
   * when the set is an alias ("" when the target carries none); `values` are the resource
   * record values in order.
   */
  datatype RecordSet = RecordSet(name: string, rtype: string, ttl: Option<int>, alias: Option<string>, values: seq<string>)

  /** One entry of the service's listing. */
  datatype Listed = Listed(rtype: string, name: string, value: string, ttl: int)

  function TtlOf(s: RecordSet): int {
    match s.ttl
    case Some(t) => t
    case None => DefaultTtl
  }

  /** Whether a listing with type filter `filter` shows the set: matching type, never SOA. */
  predicate Shown(s: RecordSet, filter: Option<string>) {
    (filter.None? || s.rtype == filter.value) && s.rtype != "SOA"
  }

  function AliasEntry(s: RecordSet): Listed
    requires s.alias.Some?
  {
    Listed(s.rtype, RTrimChar(s.name, '.'), "ALIAS: " + s.alias.value, 0)
  }

  function ValueEntry(s: RecordSet, value: string): Listed {
    Listed(s.rtype, RTrimChar(s.name, '.'), value, TtlOf(s))
  }

  /** The entries a single record set contributes to a listing. */
  function EntriesOf(s: RecordSet, filter: Option<string>): seq<Listed>
  {
    if !Shown(s, filter) then []
    else if s.alias.Some? then [AliasEntry(s)]
    else seq(|s.values|, k requires 0 <= k < |s.values| => ValueEntry(s, s.values[k]))
  }

  /** The listing of a sequence of record sets, in order. */
  function ListedOf(sets: seq<RecordSet>, filter: Option<string>): seq<Listed>
    decreases |sets|
  {
    if |sets| == 0 then []
    else ListedOf(sets[..|sets| - 1], filter) + EntriesOf(sets[|sets| - 1], filter)
  }

  /**
   * A shown alias set gives exactly one entry, with TTL 0 and the value "ALIAS: " and the
   * target; a shown standard set gives one entry per resource record, in order, with the
   * set's TTL or 300; a set that is not shown gives none.
   */
  lemma EntriesOfShape(s: RecordSet, filter: Option<string>)
    ensures var es := EntriesOf(s, filter);
      && (!Shown(s, filter) ==> es == [])
      && (Shown(s, filter) && s.alias.Some? ==>
            es == [Listed(s.rtype, RTrimChar(s.name, '.'), "ALIAS: " + s.alias.value, 0)])
      && (Shown(s, filter) && s.alias.None? ==>
            |es| == |s.values|
            && forall k :: 0 <= k < |es| ==>
                 es[k] == Listed(s.rtype, RTrimChar(s.name, '.'), s.values[k], if s.ttl.Some? then s.ttl.value else 300))
  {
  }

  lemma StrippedHasNoTrailingDot(name: string)
    ensures !EndsWith(RTrimChar(name, '.'), ".")
  {
    var r := RTrimChar(name, '.');
    assert |r| > 0 ==> r[|r| - 1..] == [r[|r| - 1]];
  }

  /** What every listed entry satisfies: never SOA, of the filtered type, no trailing dot on the name. */
  predicate WellListed(e: Listed, filter: Option<string>) {
    e.rtype != "SOA" && (filter.Some? ==> e.rtype == filter.value) && !EndsWith(e.name, ".")
  }

  /** A listing never shows SOA, respects the type filter and strips the names' trailing dots. */
  lemma {:induction false} ListedOfShape(sets: seq<RecordSet>, filter: Option<string>)
    ensures forall e :: e in ListedOf(sets, filter) ==> WellListed(e, filter)
    decreases |sets|
  {
    if |sets| > 0 {
      var s := sets[|sets| - 1];
      ListedOfShape(sets[..|sets| - 1], filter);
      EntriesOfShape(s, filter);
      StrippedHasNoTrailingDot(s.name);
      assert forall e :: e in EntriesOf(s, filter) ==> WellListed(e, filter);
    }
  }

  lemma {:induction false} ListedOfAppend(a: seq<RecordSet>, b: seq<RecordSet>, filter: Option<string>)
    ensures ListedOf(a + b, filter) == ListedOf(a, filter) + ListedOf(b, filter)
    decreases |b|
  {
    if |b| > 0 {
      var b' := b[..|b| - 1];
      assert (a + b)[..|a + b| - 1] == a + b';
      ListedOfAppend(a, b', filter);
    } else {
      assert a + b == a;
    }
  }

  /** Every alias set that is shown contributes exactly one entry with TTL 0, whatever its position. */
  lemma AliasListedOnce(before: seq<RecordSet>, s: RecordSet, after: seq<RecordSet>, filter: Option<string>)
    requires Shown(s, filter) && s.alias.Some?
    ensures ListedOf(before + [s] + after, filter)
      == ListedOf(before, filter) + [Listed(s.rtype, RTrimChar(s.name, '.'), "ALIAS: " + s.alias.value, 0)] + ListedOf(after, filter)
  {
    ListedOfAppend(before + [s], after, filter);
    assert (before + [s])[..|before|] == before;
  }

  /** The entries per page Route53 returns from one ListResourceRecordSets call. */
  const MaxItems: nat := 300

  /** A hosted zone's record sets, in the order Route53 pages through them. */
  class HostedZone {
    var sets: seq<RecordSet>

    constructor (sets: seq<RecordSet>)
      ensures this.sets == sets
    {
      this.sets := sets;
    }

    /**
     * The listing of the whole zone: the pages starting at the cursor are fetched until one
     * reports that it is not truncated, and every shown set contributes its entries.
     */
    method ListRecords(filter: Option<string>) returns (records: seq<Listed>)
      ensures records == ListedOf(sets, filter)
    {
      records := [];
      var start := 0;
      var truncated := true;
      while truncated
        invariant start <= |sets|
        invariant !truncated ==> start == |sets|
        invariant records == ListedOf(sets[..start], filter)
        decreases |sets| - start + (if truncated then 1 else 0)
      {
        var end := if start + MaxItems < |sets| then start + MaxItems else |sets|;
        var page := sets[start..end];
        ListedOfAppend(sets[..start], page, filter);
        records := AppendPage(records, page, filter);
        assert sets[..start] + page == sets[..end];
        truncated := end < |sets|;
        start := end;
      }
      assert sets[..start] == sets;
    }

    /**
     * setRecord: one UPSERT change for the qualified name with the formatted value, which
     * the zone applies to its sets.
     */
    method SetRecord(rtype: string, name: string, value: string, ttl: int)
      modifies this
      ensures sets == ApplyUpsert(old(sets), UpsertChange(rtype, name, value, ttl).recordSet)
      ensures FindIn(sets, rtype, EnsureTrailingDot(name)) == Some(Listed(rtype, RTrimChar(name, '.'), FormatRecordValue(rtype, value), ttl))
    {
      var change := UpsertChange(rtype, name, value, ttl);
      UpsertThenFind(sets, rtype, name, value, ttl);
      sets := ApplyUpsert(sets, change.recordSet);
    }
  }

  /** Appends the entries of one page of record sets to a listing. */
  method AppendPage(records: seq<Listed>, page: seq<RecordSet>, filter: Option<string>) returns (r: seq<Listed>)
    ensures r == records + ListedOf(page, filter)
  {
    r := records;
    var i := 0;
    while i < |page|
      invariant i <= |page|
      invariant r == records + ListedOf(page[..i], filter)
    {
      ListedOfPrefixStep(page, i, filter);
      ConcatAssoc(records, ListedOf(page[..i], filter), EntriesOf(page[i], filter));
      r := AppendSetEntries(r, page[i], filter);
      i := i + 1;
    }
    assert page[..i] == page;
  }

  /** One more record set of a page adds its entries to the listing of the sets before it. */
  lemma ListedOfPrefixStep(page: seq<RecordSet>, i: nat, filter: Option<string>)
    requires i < |page|
    ensures ListedOf(page[..i + 1], filter) == ListedOf(page[..i], filter) + EntriesOf(page[i], filter)
  {
    assert page[..i + 1][..i] == page[..i];
  }

  /** Appends the entries one record set contributes to a listing. */
  method AppendSetEntries(records: seq<Listed>, s: RecordSet, filter: Option<string>) returns (r: seq<Listed>)
    ensures r == records + EntriesOf(s, filter)
  {
    if filter.Some? && s.rtype != filter.value {
      r := records;
    } else if s.rtype == "SOA" {
      r := records;
    } else if s.alias.Some? {
      r := records + [AliasEntry(s)];
    } else {
      r := AppendValueEntries(records, s, filter);
    }
  }

  /** Appends one entry per resource record of a shown standard set. */
  method AppendValueEntries(records: seq<Listed>, s: RecordSet, filter: Option<string>) returns (r: seq<Listed>)
    requires Shown(s, filter) && s.alias.None?
    ensures r == records + EntriesOf(s, filter)
  {
    r := records;
    var j := 0;
    while j < |s.values|
      invariant j <= |s.values|
      invariant r == records + EntriesOf(s, filter)[..j]
    {
      assert EntriesOf(s, filter)[..j + 1] == EntriesOf(s, filter)[..j] + [ValueEntry(s, s.values[j])];
      r := r + [ValueEntry(s, s.values[j])];
      j := j + 1;
    }
    assert EntriesOf(s, filter)[..j] == EntriesOf(s, filter);
  }

  //
  // Finding one record
  // ----

  /** The entry for the first set named `fqdn` of type `rtype` that is an alias or has a value. */
  function FindIn(sets: seq<RecordSet>, rtype: string, fqdn: string): Option<Listed>
    decreases |sets|
  {
    if |sets| == 0 then None
    else
      var s := sets[0];
      if s.rtype == rtype && s.name == fqdn && s.alias.Some? then Some(AliasEntry(s))
      else if s.rtype == rtype && s.name == fqdn && |s.values| > 0 then Some(ValueEntry(s, s.values[0]))
      else FindIn(sets[1..], rtype, fqdn)
  }

  /** A set the search can report: exactly the type and the qualified name, with something to report. */
  predicate Answers(s: RecordSet, rtype: string, fqdn: string) {
    s.rtype == rtype && s.name == fqdn && (s.alias.Some? || |s.values| > 0)
  }

  /** The search reports an exact match or nothing, and reports nothing only when no set answers. */
  lemma {:induction false} FindInExact(sets: seq<RecordSet>, rtype: string, fqdn: string)
    ensures FindIn(sets, rtype, fqdn).Some? <==> exists k :: 0 <= k < |sets| && Answers(sets[k], rtype, fqdn)
    ensures FindIn(sets, rtype, fqdn).Some? ==>
      FindIn(sets, rtype, fqdn).value.rtype == rtype && FindIn(sets, rtype, fqdn).value.name == RTrimChar(fqdn, '.')
    decreases |sets|
  {
    if |sets| > 0 && !Answers(sets[0], rtype, fqdn) {
      FindInExact(sets[1..], rtype, fqdn);
      if exists k :: 0 <= k < |sets| && Answers(sets[k], rtype, fqdn) {
        var k :| 0 <= k < |sets| && Answers(sets[k], rtype, fqdn);
        assert sets[1..][k - 1] == sets[k];
      }
    }
  }

  /**
   * The record of type `rtype` named `name`: the API is asked for the sets starting at the
   * qualified name, and `response` is what it returns.
   */
  method FindRecord(response: seq<RecordSet>, rtype: string, name: string) returns (r: Option<Listed>)
    ensures r == FindIn(response, rtype, EnsureTrailingDot(name))
  {
    var fqdn := EnsureTrailingDot(name);
    var i := 0;
    while i < |response|
      invariant i <= |response|
      invariant FindIn(response, rtype, fqdn) == FindIn(response[i..], rtype, fqdn)
    {
      var s := response[i];
      assert response[i..][0] == s && response[i..][1..] == response[i + 1..];
      if s.rtype == rtype && s.name == fqdn {
        if s.alias.Some? {
          return Some(AliasEntry(s));
        }
        if |s.values| > 0 {
          return Some(ValueEntry(s, s.values[0]));
        }
      }
      i := i + 1;
    }
    return None;
  }

  //
  // Change batches
  // ----

  datatype Action = Upsert | Delete

  datatype Change = Change(action: Action, recordSet: RecordSet)

  /** setRecord's change: the qualified name and the formatted value, as an UPSERT. */
  function UpsertChange(rtype: string, name: string, value: string, ttl: int): (c: Change)
    ensures c.action == Upsert && EndsWith(c.recordSet.name, ".") && c.recordSet.alias.None?
    ensures c.recordSet.values == [FormatRecordValue(rtype, value)]
  {
    Change(Upsert, RecordSet(EnsureTrailingDot(name), rtype, Some(ttl), None, [FormatRecordValue(rtype, value)]))
  }

  /** deleteRecord's change: the qualified name and the value exactly as given, as a DELETE. */
  function DeleteChange(rtype: string, name: string, value: string, ttl: int): (c: Change)
    ensures c.action == Delete && EndsWith(c.recordSet.name, ".") && c.recordSet.values == [value]
  {
    Change(Delete, RecordSet(EnsureTrailingDot(name), rtype, Some(ttl), None, [value]))
  }

  /** Whether two sets have the same name and type, the key Route53 identifies a set by. */
  predicate SameKey(a: RecordSet, b: RecordSet) {
    a.name == b.name && a.rtype == b.rtype
  }

  /**
   * What an UPSERT of `rs` does to the zone's sets: a set with the same name and type is
   * replaced in its place; without one, `rs` is added at the end.
   */
  function ApplyUpsert(sets: seq<RecordSet>, rs: RecordSet): (r: seq<RecordSet>)
    ensures rs in r
    ensures forall k :: 0 <= k < |r| ==> r[k] == rs || (k < |sets| && r[k] == sets[k] && !SameKey(sets[k], rs))
    ensures forall k :: 0 <= k < |sets| && !SameKey(sets[k], rs) ==> k < |r| && r[k] == sets[k]
  {
    if exists k :: 0 <= k < |sets| && SameKey(sets[k], rs) then
      var r := seq(|sets|, k requires 0 <= k < |sets| => if SameKey(sets[k], rs) then rs else sets[k]);
      var j :| 0 <= j < |sets| && SameKey(sets[j], rs);
      assert r[j] == rs;
      r
    else
      var r := sets + [rs];
      assert r[|sets|] == rs;
      r
  }

  /** The entry the search reports for a set that answers it. */
  function EntryFor(s: RecordSet): Listed
    requires s.alias.Some? || |s.values| > 0
  {
    if s.alias.Some? then AliasEntry(s) else ValueEntry(s, s.values[0])
  }

  /** When every set that answers the search is `x`, and `x` is among the sets, the search reports `x`. */
  lemma {:induction false} FindInOnly(sets: seq<RecordSet>, rtype: string, fqdn: string, x: RecordSet)
    requires x in sets && Answers(x, rtype, fqdn)
    requires forall k :: 0 <= k < |sets| && Answers(sets[k], rtype, fqdn) ==> sets[k] == x
    ensures FindIn(sets, rtype, fqdn) == Some(EntryFor(x))
    decreases |sets|
  {
    if sets[0] != x {
      assert !Answers(sets[0], rtype, fqdn);
      assert x in sets[1..] by {
        var k :| 0 <= k < |sets| && sets[k] == x;
        assert sets[1..][k - 1] == x;
      }
      FindInOnly(sets[1..], rtype, fqdn, x);
    }
  }

  /** Sets that differ only where neither answers the search give the same search result. */
  lemma {:induction false} FindInSame(a: seq<RecordSet>, b: seq<RecordSet>, rtype: string, fqdn: string)
    requires |a| <= |b|
    requires forall k :: 0 <= k < |a| ==> a[k] == b[k] || (!Answers(a[k], rtype, fqdn) && !Answers(b[k], rtype, fqdn))
    requires forall k :: |a| <= k < |b| ==> !Answers(b[k], rtype, fqdn)
    ensures FindIn(a, rtype, fqdn) == FindIn(b, rtype, fqdn)
    decreases |b|
  {
    if |b| > 0 {
      assert forall k :: 0 <= k < |b| - 1 ==> b[1..][k] == b[k + 1];
      if |a| > 0 {
        assert forall k :: 0 <= k < |a| - 1 ==> a[1..][k] == a[k + 1];
        FindInSame(a[1..], b[1..], rtype, fqdn);
      } else {
        FindInSame(a, b[1..], rtype, fqdn);
      }
    }
  }

  /** After setRecord's UPSERT, the search under the same type and name reports the written value. */
  lemma UpsertThenFind(sets: seq<RecordSet>, rtype: string, name: string, value: string, ttl: int)
    ensures FindIn(ApplyUpsert(sets, UpsertChange(rtype, name, value, ttl).recordSet), rtype, EnsureTrailingDot(name))
      == Some(Listed(rtype, RTrimChar(name, '.'), FormatRecordValue(rtype, value), ttl))
  {
    var rs := UpsertChange(rtype, name, value, ttl).recordSet;
    var r := ApplyUpsert(sets, rs);
    FindInOnly(r, rtype, EnsureTrailingDot(name), rs);
    StripQualified(name);
  }

  /** An UPSERT leaves the search under every other type or name as it was. */
  lemma UpsertKeepsOthers(sets: seq<RecordSet>, rs: RecordSet, rtype: string, fqdn: string)
    requires rs.rtype != rtype || rs.name != fqdn
    ensures FindIn(ApplyUpsert(sets, rs), rtype, fqdn) == FindIn(sets, rtype, fqdn)
  {
    var r := ApplyUpsert(sets, rs);
    FindInSame(sets, r, rtype, fqdn);
  }

  /** A listed entry of a Route53 set names the set again when it is deleted. */
  lemma DeleteListed(s: RecordSet, k: nat)
    requires s.alias.None? && k < |s.values|
    requires EndsWith(s.name, ".") && !EndsWith(s.name, "..")
    ensures var e := ValueEntry(s, s.values[k]);
      DeleteChange(e.rtype, e.name, e.value, e.ttl).recordSet == RecordSet(s.name, s.rtype, Some(TtlOf(s)), None, [s.values[k]])
  {
    QualifyStripped(s.name);
  }
}
