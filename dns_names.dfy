/**
 * Host-name shapes shared by the DNS validators: labels in the preferred name syntax of
 * section 2.3.1 of RFC 1035 (letters, digits and hyphens, starting and ending with a letter
 * or digit) and the length limits of section 2.3.4 of RFC 1035.
 */
module DnsNames {
  import opened PhpStrings

  /** `[a-z0-9]([a-z0-9-]*[a-z0-9])?` under the flag `i`. */
  predicate LdhLabel(l: string) {
    |l| > 0 && IsAlnum(l[0]) && IsAlnum(l[|l| - 1])
    && forall i :: 0 <= i < |l| ==> IsAlnum(l[i]) || l[i] == '-'
  }

  /**
   * `LDH(\.LDH)*`: one or more LDH labels separated by single dots.  A string matches the
   * anchored pattern `^LDH(\.LDH)*$` exactly when LdhName(Chomp(s)) holds.
   */
  predicate LdhName(s: string) {
    var labels := Split(s, '.');
    forall k :: 0 <= k < |labels| ==> LdhLabel(labels[k])
  }

  /** No dot-separated label of `s` is longer than `max` characters. */
  predicate LabelsAtMost(s: string, max: nat) {
    var labels := Split(s, '.');
    forall k :: 0 <= k < |labels| ==> |labels[k]| <= max
  }

  /** Some dot-separated label of `s` is longer than the 63 characters a DNS label may hold. */
  predicate HasLongLabel(s: string) {
    !LabelsAtMost(s, 63)
  }

  /** A name in LDH syntax is non-empty and neither starts nor ends with a dot. */
  lemma LdhNameShape(s: string)
    requires LdhName(s)
    ensures |s| > 0 && s[0] != '.' && s[|s| - 1] != '.'
    ensures forall i :: 0 <= i < |s| ==> IsAlnum(s[i]) || s[i] == '-' || s[i] == '.'
  {
    LdhNameChars(s);
  }

  lemma {:induction false} LdhNameChars(s: string)
    requires LdhName(s)
    ensures |s| > 0 && IsAlnum(s[0]) && IsAlnum(s[|s| - 1])
    ensures forall i :: 0 <= i < |s| ==> IsAlnum(s[i]) || s[i] == '-' || s[i] == '.'
    decreases |s|
  {
    var labels := Split(s, '.');
    assert LdhLabel(labels[0]);
    if '.' in s {
      var i := IndexOf(s, '.');
      assert labels == [s[..i]] + Split(s[i + 1..], '.');
      var rest := s[i + 1..];
      assert LdhName(rest) by {
        var rl := Split(rest, '.');
        forall k | 0 <= k < |rl| ensures LdhLabel(rl[k]) { assert rl[k] == labels[k + 1]; }
      }
      LdhNameChars(rest);
      assert s == s[..i] + "." + rest;
      assert s[0] == labels[0][0];
      assert s[|s| - 1] == rest[|rest| - 1];
      forall j | 0 <= j < |s| ensures IsAlnum(s[j]) || s[j] == '-' || s[j] == '.' {
        if j < i { assert s[j] == labels[0][j]; }
        else if j > i { assert s[j] == rest[j - i - 1]; }
      }
    } else {
      assert labels == [s];
    }
  }
}
