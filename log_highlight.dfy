/**
 * Highlighting of server logs: every line that mentions an error keyword, or an HTTP 5xx
 * gateway status as a whole word, is wrapped in the console's red style tag.
 */
module LogHighlight {
  import opened PhpStrings

  const Keywords: seq<string> := ["error", "exception", "fail", "failed", "fatal", "panic"]
  const StatusCodes: seq<string> := ["500", "502", "503", "504"]

  const RedOpen: string := "<fg=red>"
  const RedClose: string := "</>"

  /** The lower-cased line contains one of the keywords. */
  predicate HasKeyword(line: string) {
    exists k :: 0 <= k < |Keywords| && Contains(ToLower(line), Keywords[k])
  }

  /** `\b(500|502|503|504)\b` matches at position `i`. */
  predicate StatusAt(line: string, i: int) {
    0 <= i && i + 3 <= |line| && line[i..i + 3] in StatusCodes
    && (i == 0 || !IsWordChar(line[i - 1]))
    && (i + 3 == |line| || !IsWordChar(line[i + 3]))
  }

  /** preg_match of the status pattern. */
  predicate HasStatusCode(line: string) {
    exists i :: 0 <= i <= |line| - 3 && StatusAt(line, i)
  }

  /** The line as shown: wrapped in red when it looks like an error. */
  function HighlightLine(line: string): (r: string)
    ensures '\n' !in line ==> '\n' !in r
  {
    if HasKeyword(line) || HasStatusCode(line) then RedOpen + line + RedClose else line
  }

  function HighlightAll(lines: seq<string>): (r: seq<string>)
    ensures |r| == |lines|
    ensures forall k :: 0 <= k < |r| ==> r[k] == HighlightLine(lines[k])
  {
    if |lines| == 0 then [] else HighlightAll(lines[..|lines| - 1]) + [HighlightLine(lines[|lines| - 1])]
  }

  /** highlightErrors: the content split into lines, each line highlighted, joined again. */
  method HighlightErrors(content: string) returns (r: string)
    ensures r == Join(HighlightAll(Split(content, '\n')), '\n')
  {
    var lines := Split(content, '\n');
    var processedLines: seq<string> := [];
    for i := 0 to |lines|
      invariant processedLines == HighlightAll(lines[..i])
    {
      var line := lines[i];
      var lowerLine := ToLower(line);
      var hasError := false;
      var j := 0;
      while j < |Keywords|
        invariant 0 <= j <= |Keywords|
        invariant hasError <==> exists k :: 0 <= k < j && Contains(lowerLine, Keywords[k])
        invariant hasError ==> HasKeyword(line)
        decreases |Keywords| - j, if hasError then 0 else 1
      {
        if Contains(lowerLine, Keywords[j]) {
          hasError := true;
          break;
        }
        j := j + 1;
      }
      assert !hasError ==> !HasKeyword(line);
      if !hasError && HasStatusCode(line) {
        hasError := true;
      }
      assert lines[..i + 1] == lines[..i] + [line];
      if hasError {
        processedLines := processedLines + [RedOpen + line + RedClose];
      } else {
        processedLines := processedLines + [line];
      }
    }
    assert lines[..|lines|] == lines;
    r := Join(processedLines, '\n');
  }

  /**
   * The output has as many lines as the input, and line `k` of the output is line `k` of the
   * input, wrapped in red exactly when it holds a keyword or a whole-word 5xx status, and
   * unchanged otherwise.
   */
  lemma HighlightedLines(content: string)
    ensures var lines := Split(content, '\n');
      var out := Split(Join(HighlightAll(lines), '\n'), '\n');
      |out| == |lines|
      && forall k :: 0 <= k < |out| ==>
        out[k] == (if HasKeyword(lines[k]) || HasStatusCode(lines[k]) then RedOpen + lines[k] + RedClose else lines[k])
  {
    var lines := Split(content, '\n');
    var processed := HighlightAll(lines);
    SplitJoin(processed, '\n');
  }

  /** Stripping the red tags from the highlighted lines gives back the original content. */
  lemma HighlightReversible(content: string)
    ensures var lines := Split(content, '\n');
      Join(Unhighlight(HighlightAll(lines), lines), '\n') == content
  {
    var lines := Split(content, '\n');
    JoinSplit(content, '\n');
    UnhighlightAll(lines);
  }

  /** An output line with its tags removed when its input line was wrapped. */
  function StripTags(o: string, line: string): string {
    var wrapped := HasKeyword(line) || HasStatusCode(line);
    if wrapped && |o| >= |RedOpen| + |RedClose| then o[|RedOpen|..|o| - |RedClose|] else o
  }

  /** Each output line with its tags removed where they were added. */
  function Unhighlight(out: seq<string>, lines: seq<string>): (r: seq<string>)
    requires |out| == |lines|
    ensures |r| == |out|
  {
    if |out| == 0 then []
    else Unhighlight(out[..|out| - 1], lines[..|lines| - 1]) + [StripTags(out[|out| - 1], lines[|lines| - 1])]
  }

  lemma {:induction false} UnhighlightAll(lines: seq<string>)
    ensures Unhighlight(HighlightAll(lines), lines) == lines
    decreases |lines|
  {
    if |lines| > 0 {
      var n := |lines|;
      var init := lines[..n - 1];
      var line := lines[n - 1];
      assert lines == init + [line];
      var out := HighlightAll(lines);
      assert out[..n - 1] == HighlightAll(init);
      UnhighlightAll(init);
      StripHighlighted(line);
    }
  }

  /** Stripping the tags of one highlighted line gives the line back. */
  lemma StripHighlighted(line: string)
    ensures StripTags(HighlightLine(line), line) == line
  {
    if HasKeyword(line) || HasStatusCode(line) {
      var o := RedOpen + line + RedClose;
      assert o[|RedOpen|..|o| - |RedClose|] == line;
    }
  }

  /** A gateway status between non-word characters is found by the status pattern. */
  lemma StatusFound(before: string, code: string, after: string)
    requires code in StatusCodes
    requires before == "" || !IsWordChar(before[|before| - 1])
    requires after == "" || !IsWordChar(after[0])
    ensures HasStatusCode(before + code + after)
  {
    assert |code| == 3;
    var line := before + code + after;
    var i := |before|;
    assert line[i..i + 3] == code;
    assert i > 0 ==> line[i - 1] == before[|before| - 1];
    assert i + 3 < |line| ==> line[i + 3] == after[0];
    assert StatusAt(line, i);
  }

  /** A line naming a gateway status as a word is highlighted even without a keyword. */
  lemma StatusLineHighlighted(before: string, code: string, after: string)
    requires code in StatusCodes
    requires before == "" || !IsWordChar(before[|before| - 1])
    requires after == "" || !IsWordChar(after[0])
    ensures HighlightLine(before + code + after) == RedOpen + (before + code + after) + RedClose
  {
    StatusFound(before, code, after);
  }

  /** A status code inside a longer number ("5000", "1500") does not count. */
  lemma EmbeddedStatusIgnored()
    ensures !HasStatusCode("5000") && !HasStatusCode("1500")
  {
    assert !StatusAt("5000", 0) by { assert IsWordChar("5000"[3]); }
    assert !StatusAt("5000", 1) by { assert "5000"[1..4] == "000"; }
    assert !StatusAt("1500", 1) by { assert IsWordChar("1500"[0]); }
    assert !StatusAt("1500", 0) by { assert "1500"[0..3] == "150"; }
  }
}
