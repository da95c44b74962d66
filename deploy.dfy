/**
 * The decisions `site:deploy` takes before running its playbook: how many releases to keep,
 * which deployment hooks the repository provides, and whether the site's repository and
 * branch in the inventory must be updated.
 */
module SiteDeploy {
  import opened Wrappers
  import opened PhpStrings

  const DefaultKeepReleases: nat := 5

  datatype KeepReleasesError =
    /** "The --keep-releases option must be a positive integer." */
    | NotAnInteger
    /** "The --keep-releases option must be at least 1." */
    | BelowOne

  /**
   * resolveKeepReleases: an absent or blank option keeps the default of 5; otherwise the
   * option must be all digits (no sign, no spaces) with a value of at least 1.
   */
  function ResolveKeepReleases(value: Option<string>): (r: Result<nat, KeepReleasesError>)
    ensures r.Ok? ==> r.value >= 1
    ensures (value.None? || IsBlank(value.value)) ==> r == Ok(DefaultKeepReleases)
    ensures value.Some? && !IsBlank(value.value) && !IsDigits(value.value) ==> r == Err(NotAnInteger)
    ensures value.Some? && !IsBlank(value.value) && IsDigits(value.value) ==>
      (r.Ok? <==> LeadingDigitsValue(value.value) >= 1)
    ensures r.Ok? && value.Some? && !IsBlank(value.value) ==> r.value == LeadingDigitsValue(value.value)
  {
    if value.None? then Ok(DefaultKeepReleases)
    else
      TrimEmptyIff(value.value);
      if Trim(value.value) == "" then Ok(DefaultKeepReleases)
      else if !IsDigits(value.value) then Err(NotAnInteger)
      else
        var n := IntCast(value.value);
        DigitsNumeric(value.value);
        if n < 1 then Err(BelowOne) else Ok(n)
  }

  /** Reading the digits of `a` followed by one more digit. */
  lemma {:induction false} LeadingDigitsAppend(a: string, d: char, acc: nat)
    requires forall i :: 0 <= i < |a| ==> IsDigit(a[i])
    requires IsDigit(d)
    ensures LeadingDigitsValueAcc(a + [d], acc) == 10 * LeadingDigitsValueAcc(a, acc) + DigitValue(d)
    decreases |a|
  {
    if |a| == 0 {
      assert (a + [d])[1..] == [];
    } else {
      assert (a + [d])[1..] == a[1..] + [d];
      LeadingDigitsAppend(a[1..], d, 10 * acc + DigitValue(a[0]));
    }
  }

  /** The decimal numeral of a number reads back as that number. */
  lemma {:induction false} NumeralValue(n: nat)
    ensures LeadingDigitsValue(NatToString(n)) == n
    decreases n
  {
    if n >= 10 {
      NumeralValue(n / 10);
      var d := ('0' as int + n % 10) as char;
      LeadingDigitsAppend(NatToString(n / 10), d, 0);
    } else {
      var c := ('0' as int + n) as char;
      assert NatToString(n) == [c];
      assert IsDigit(c) && DigitValue(c) == n;
      assert [c][1..] == [];
      assert LeadingDigitsValueAcc([c], 0) == LeadingDigitsValueAcc([], n);
    }
  }

  /** Any positive count written in decimal is accepted as that count. */
  lemma KeepReleasesRoundTrip(n: nat)
    requires n >= 1
    ensures ResolveKeepReleases(Some(NatToString(n))) == Ok(n)
  {
    var s := NatToString(n);
    NumeralValue(n);
    assert IsDigits(s) && !IsTrimChar(s[0]);
    assert !IsBlank(s);
  }

  //
  // Deployment hooks
  // ----

  datatype HookStatus = Present | Missing

  /** The hook names of a status list, in order. */
  function HookNames(status: seq<(string, HookStatus)>): (r: seq<string>)
    ensures |r| == |status|
    ensures forall i :: 0 <= i < |r| ==> r[i] == status[i].0
  {
    if |status| == 0 then [] else [status[0].0] + HookNames(status[1..])
  }

  /**
   * `$status[$hook] = $s` on an ordered PHP array: an existing hook keeps its position and
   * takes the new status; a new hook is appended.
   */
  function SetStatus(status: seq<(string, HookStatus)>, hook: string, s: HookStatus): (r: seq<(string, HookStatus)>)
    ensures hook !in HookNames(status) ==> r == status + [(hook, s)]
    ensures hook in HookNames(status) ==> |r| == |status|
    ensures forall i :: 0 <= i < |status| ==> r[i] == if status[i].0 == hook then (hook, s) else status[i]
  {
    if hook in HookNames(status) then seq(|status|, i requires 0 <= i < |status| => if status[i].0 == hook then (hook, s) else status[i])
    else status + [(hook, s)]
  }

  /** No hook is named twice, as in the keys of a PHP array. */
  predicate DistinctNames(status: seq<(string, HookStatus)>) {
    forall i, j :: 0 <= i < j < |status| ==> status[i].0 != status[j].0
  }

  function StatusOf(hook: string, availableHooks: seq<string>): HookStatus {
    if hook in availableHooks then Present else Missing
  }

  /** The status list after the first `|expected|` expected hooks were recorded. */
  function HooksStatusSpec(availableHooks: seq<string>, expectedHooks: seq<string>): seq<(string, HookStatus)>
    decreases |expectedHooks|
  {
    if |expectedHooks| == 0 then []
    else
      var hook := expectedHooks[|expectedHooks| - 1];
      SetStatus(HooksStatusSpec(availableHooks, expectedHooks[..|expectedHooks| - 1]), hook, StatusOf(hook, availableHooks))
  }

  /** getHooksStatus: each expected hook, "present" when the repository has it, else "missing". */
  method GetHooksStatus(availableHooks: seq<string>, expectedHooks: seq<string>) returns (status: seq<(string, HookStatus)>)
    ensures status == HooksStatusSpec(availableHooks, expectedHooks)
  {
    status := [];
    for i := 0 to |expectedHooks|
      invariant status == HooksStatusSpec(availableHooks, expectedHooks[..i])
    {
      var hook := expectedHooks[i];
      assert expectedHooks[..i + 1][..i] == expectedHooks[..i];
      var s := if hook in availableHooks then Present else Missing;
      status := SetStatus(status, hook, s);
    }
    assert expectedHooks[..|expectedHooks|] == expectedHooks;
  }

  /** Recording a hook adds its name and keeps the names distinct. */
  lemma SetStatusNames(prev: seq<(string, HookStatus)>, hook: string, s: HookStatus)
    requires DistinctNames(prev)
    ensures DistinctNames(SetStatus(prev, hook, s))
    ensures forall h :: h in HookNames(SetStatus(prev, hook, s)) <==> h in HookNames(prev) || h == hook
  {
    if hook !in HookNames(prev) {
      AppendedStatusNames(prev, hook, s);
    } else {
      ReplacedStatusNames(prev, hook, s);
    }
  }

  lemma AppendedStatusNames(prev: seq<(string, HookStatus)>, hook: string, s: HookStatus)
    requires DistinctNames(prev) && hook !in HookNames(prev)
    ensures DistinctNames(prev + [(hook, s)])
    ensures HookNames(prev + [(hook, s)]) == HookNames(prev) + [hook]
  {
    var status := prev + [(hook, s)];
    assert HookNames(status) == HookNames(prev) + [hook];
    forall i, j | 0 <= i < j < |status| ensures status[i].0 != status[j].0 {
      assert prev[i].0 == HookNames(prev)[i];
      if j == |prev| {
        assert status[j].0 == hook && status[i] == prev[i];
      } else {
        assert status[i] == prev[i] && status[j] == prev[j];
      }
    }
  }

  lemma ReplacedStatusNames(prev: seq<(string, HookStatus)>, hook: string, s: HookStatus)
    requires DistinctNames(prev) && hook in HookNames(prev)
    ensures DistinctNames(SetStatus(prev, hook, s))
    ensures HookNames(SetStatus(prev, hook, s)) == HookNames(prev)
  {
    var status := SetStatus(prev, hook, s);
    forall i, j | 0 <= i < j < |status| ensures status[i].0 != status[j].0 {
      assert status[i].0 == prev[i].0 && status[j].0 == prev[j].0;
    }
    assert HookNames(status) == HookNames(prev);
  }

  /** The status list names exactly the expected hooks, each once. */
  lemma HooksStatusNames(availableHooks: seq<string>, expectedHooks: seq<string>)
    ensures DistinctNames(HooksStatusSpec(availableHooks, expectedHooks))
    ensures forall h :: h in HookNames(HooksStatusSpec(availableHooks, expectedHooks)) <==> h in expectedHooks
  {
    HooksStatusDistinct(availableHooks, expectedHooks);
    HooksStatusNameSet(availableHooks, expectedHooks);
  }

  lemma {:induction false} HooksStatusDistinct(availableHooks: seq<string>, expectedHooks: seq<string>)
    ensures DistinctNames(HooksStatusSpec(availableHooks, expectedHooks))
    decreases |expectedHooks|
  {
    if |expectedHooks| > 0 {
      var init := expectedHooks[..|expectedHooks| - 1];
      var hook := expectedHooks[|expectedHooks| - 1];
      HooksStatusDistinct(availableHooks, init);
      SetStatusNames(HooksStatusSpec(availableHooks, init), hook, StatusOf(hook, availableHooks));
    }
  }

  lemma {:induction false} HooksStatusNameSet(availableHooks: seq<string>, expectedHooks: seq<string>)
    ensures forall h :: h in HookNames(HooksStatusSpec(availableHooks, expectedHooks)) <==> h in expectedHooks
    decreases |expectedHooks|
  {
    if |expectedHooks| > 0 {
      var init := expectedHooks[..|expectedHooks| - 1];
      var hook := expectedHooks[|expectedHooks| - 1];
      HooksStatusNameSet(availableHooks, init);
      HooksStatusDistinct(availableHooks, init);
      var prev := HooksStatusSpec(availableHooks, init);
      var status := SetStatus(prev, hook, StatusOf(hook, availableHooks));
      assert HooksStatusSpec(availableHooks, expectedHooks) == status;
      SetStatusNames(prev, hook, StatusOf(hook, availableHooks));
      assert expectedHooks == init + [hook];
      forall h ensures h in HookNames(status) <==> h in expectedHooks {
        assert h in expectedHooks <==> h in init || h == hook;
      }
    }
  }

  /** Every recorded status is "present" exactly for the hooks the repository provides. */
  predicate StatusesAgree(status: seq<(string, HookStatus)>, availableHooks: seq<string>) {
    forall i :: 0 <= i < |status| ==> status[i].1 == StatusOf(status[i].0, availableHooks)
  }

  lemma SetStatusAgrees(prev: seq<(string, HookStatus)>, hook: string, availableHooks: seq<string>)
    requires StatusesAgree(prev, availableHooks)
    ensures StatusesAgree(SetStatus(prev, hook, StatusOf(hook, availableHooks)), availableHooks)
  {
    var status := SetStatus(prev, hook, StatusOf(hook, availableHooks));
    forall i | 0 <= i < |status| ensures status[i].1 == StatusOf(status[i].0, availableHooks) {
      if i < |prev| && prev[i].0 != hook {
        assert status[i] == prev[i];
      }
    }
  }

  /** Each hook's status is "present" exactly when the repository provides it. */
  lemma {:induction false} HooksStatusValues(availableHooks: seq<string>, expectedHooks: seq<string>)
    ensures StatusesAgree(HooksStatusSpec(availableHooks, expectedHooks), availableHooks)
    decreases |expectedHooks|
  {
    if |expectedHooks| > 0 {
      var init := expectedHooks[..|expectedHooks| - 1];
      var hook := expectedHooks[|expectedHooks| - 1];
      HooksStatusValues(availableHooks, init);
      SetStatusAgrees(HooksStatusSpec(availableHooks, init), hook, availableHooks);
    }
  }

  /** When the expected hooks are distinct, the status list follows their order. */
  lemma {:induction false} HooksStatusOrder(availableHooks: seq<string>, expectedHooks: seq<string>)
    requires forall i, j :: 0 <= i < j < |expectedHooks| ==> expectedHooks[i] != expectedHooks[j]
    ensures HookNames(HooksStatusSpec(availableHooks, expectedHooks)) == expectedHooks
    decreases |expectedHooks|
  {
    if |expectedHooks| > 0 {
      var init := expectedHooks[..|expectedHooks| - 1];
      var hook := expectedHooks[|expectedHooks| - 1];
      assert expectedHooks == init + [hook];
      DistinctInit(expectedHooks);
      HooksStatusOrder(availableHooks, init);
      var prev := HooksStatusSpec(availableHooks, init);
      assert HooksStatusSpec(availableHooks, expectedHooks) == SetStatus(prev, hook, StatusOf(hook, availableHooks));
      NewHookAppended(prev, hook, StatusOf(hook, availableHooks));
    }
  }

  /** Dropping the last of distinct hooks leaves distinct hooks that do not name it. */
  lemma DistinctInit(hooks: seq<string>)
    requires |hooks| > 0
    requires forall i, j :: 0 <= i < j < |hooks| ==> hooks[i] != hooks[j]
    ensures var init := hooks[..|hooks| - 1];
      (forall i, j :: 0 <= i < j < |init| ==> init[i] != init[j]) && hooks[|hooks| - 1] !in init
  {
    var init := hooks[..|hooks| - 1];
    forall k | 0 <= k < |init| ensures init[k] != hooks[|hooks| - 1] {
      assert init[k] == hooks[k];
    }
  }

  /** Setting a hook the list does not name appends it to the names. */
  lemma NewHookAppended(prev: seq<(string, HookStatus)>, hook: string, s: HookStatus)
    requires hook !in HookNames(prev)
    ensures HookNames(SetStatus(prev, hook, s)) == HookNames(prev) + [hook]
  {
    var status := SetStatus(prev, hook, s);
    assert status == prev + [(hook, s)];
    assert |HookNames(status)| == |HookNames(prev) + [hook]|;
    forall k | 0 <= k < |status| ensures HookNames(status)[k] == (HookNames(prev) + [hook])[k] {
      if k < |prev| {
        assert status[k] == prev[k];
      }
    }
  }

  /** `array_keys(array_filter($hooksStatus, fn ($s) => 'missing' === $s))`. */
  function MissingHooks(status: seq<(string, HookStatus)>): (r: seq<string>)
    ensures |r| <= |status|
    ensures forall h :: h in r <==> exists i :: 0 <= i < |status| && status[i] == (h, Missing)
  {
    if |status| == 0 then []
    else
      var rest := MissingHooks(status[1..]);
      assert forall i :: 0 < i < |status| ==> status[i] == status[1..][i - 1];
      assert forall i :: 0 <= i < |status| - 1 ==> status[1..][i] == status[i + 1];
      if status[0].1 == Missing then [status[0].0] + rest else rest
  }

  /** The missing hooks are exactly the expected hooks the repository does not provide. */
  lemma MissingHooksExact(availableHooks: seq<string>, expectedHooks: seq<string>, h: string)
    ensures h in MissingHooks(HooksStatusSpec(availableHooks, expectedHooks)) <==>
      h in expectedHooks && h !in availableHooks
  {
    var status := HooksStatusSpec(availableHooks, expectedHooks);
    HooksStatusNames(availableHooks, expectedHooks);
    HooksStatusValues(availableHooks, expectedHooks);
    if h in expectedHooks {
      assert h in HookNames(status);
      var i :| 0 <= i < |status| && HookNames(status)[i] == h;
      assert status[i].0 == h;
    }
  }

  //
  // Repository and branch of the site
  // ----

  /** A stored value or option that is present and not empty. */
  predicate Given(v: Option<string>) {
    v.Some? && v.value != ""
  }

  /** The repository and branch the deploy uses, and whether the inventory must be updated. */
  datatype SiteDeets = SiteDeets(repo: string, branch: string, needsUpdate: bool)

  /**
   * Why resolving one field (repository or branch) fails, if it does: a stored value with an
   * option given is overridden only when the validator accepts the option; a value never
   * stored is what the option or the prompt gave (`answer`, or the validator's message).
   */
  function Rejection(stored: Option<string>, cli: Option<string>, validate: string -> Option<string>,
                     answer: Result<string, string>): Option<string>
  {
    if Given(stored) then
      if Given(cli) then validate(cli.value) else None
    else if answer.Err? then Some(answer.error) else None
  }

  /**
   * gatherSiteDeets: a stored repository is kept unless the --repo option overrides it, and
   * an override is validated first; a repository that was never stored comes from the
   * option or the prompt (`answerRepo`, the outcome of the validated prompt).  The branch is
   * resolved the same way, after the repository.  A validation failure ends the command with
   * its message.  The inventory needs an update exactly when either value was not stored or
   * was overridden.
   */
  method GatherSiteDeets(
    storedRepo: Option<string>, storedBranch: Option<string>,
    cliRepo: Option<string>, cliBranch: Option<string>,
    validateRepo: string -> Option<string>, validateBranch: string -> Option<string>,
    answerRepo: Result<string, string>, answerBranch: Result<string, string>)
    returns (r: Result<SiteDeets, string>)
    ensures Given(storedRepo) && Given(cliRepo) && validateRepo(cliRepo.value).Some? ==>
      r == Err(validateRepo(cliRepo.value).value)
    ensures !Given(storedRepo) && answerRepo.Err? ==> r == Err(answerRepo.error)
    ensures (Rejection(storedRepo, cliRepo, validateRepo, answerRepo).None? &&
             Given(storedBranch) && Given(cliBranch) && validateBranch(cliBranch.value).Some?) ==>
      r == Err(validateBranch(cliBranch.value).value)
    ensures (Rejection(storedRepo, cliRepo, validateRepo, answerRepo).None? &&
             !Given(storedBranch) && answerBranch.Err?) ==> r == Err(answerBranch.error)
    ensures r.Ok? <==> Rejection(storedRepo, cliRepo, validateRepo, answerRepo).None? &&
                       Rejection(storedBranch, cliBranch, validateBranch, answerBranch).None?
    ensures r.Ok? ==>
      (r.value.needsUpdate <==> !Given(storedRepo) || Given(cliRepo) || !Given(storedBranch) || Given(cliBranch))
    ensures r.Ok? && Given(storedRepo) ==> r.value.repo == if Given(cliRepo) then cliRepo.value else storedRepo.value
    ensures r.Ok? && !Given(storedRepo) ==> r.value.repo == answerRepo.value
    ensures r.Ok? && Given(storedBranch) ==>
      r.value.branch == if Given(cliBranch) then cliBranch.value else storedBranch.value
    ensures r.Ok? && !Given(storedBranch) ==> r.value.branch == answerBranch.value
    ensures r.Ok? && !r.value.needsUpdate ==> Some(r.value.repo) == storedRepo && Some(r.value.branch) == storedBranch
  {
    var needsUpdate := false;
    var repo: string;
    if storedRepo.Some? && storedRepo.value != "" {
      if cliRepo.Some? && cliRepo.value != "" {
        var error := validateRepo(cliRepo.value);
        if error.Some? {
          return Err(error.value);
        }
        repo := cliRepo.value;
        needsUpdate := true;
      } else {
        repo := storedRepo.value;
      }
    } else {
      if answerRepo.Err? {
        return Err(answerRepo.error);
      }
      repo := answerRepo.value;
      needsUpdate := true;
    }
    var branch: string;
    if storedBranch.Some? && storedBranch.value != "" {
      if cliBranch.Some? && cliBranch.value != "" {
        var error := validateBranch(cliBranch.value);
        if error.Some? {
          return Err(error.value);
        }
        branch := cliBranch.value;
        needsUpdate := true;
      } else {
        branch := storedBranch.value;
      }
    } else {
      if answerBranch.Err? {
        return Err(answerBranch.error);
      }
      branch := answerBranch.value;
      needsUpdate := true;
    }
    return Ok(SiteDeets(repo, branch, needsUpdate));
  }
}
