/**
 * Route53 hosted-zone resolution: zone IDs and domain names are resolved against the
 * account's hosted zones, with a process-local cache from cleaned zone ID to zone name.
 */
module Route53Zones {
  import opened Wrappers
  import opened PhpStrings
  import opened Collections
  import opened Sorting

  /** The prefix Route53 puts in front of a hosted zone's ID. */
  const HostedZonePrefix: string := "/hostedzone/"

  /** A hosted zone as the API reports it: a prefixed ID and a name with a trailing dot. */
  datatype ApiZone = ApiZone(id: string, name: string)

  datatype ZoneError =
    | ZoneNotFound(zoneId: string)
    | NoZoneForDomain(input: string)

  /** `preg_replace('#^/hostedzone/#', '', $id)`: one leading "/hostedzone/" is removed. */
  function CleanZoneId(id: string): (r: string)
    ensures StartsWith(id, HostedZonePrefix) ==> id == HostedZonePrefix + r
    ensures !StartsWith(id, HostedZonePrefix) ==> r == id
  {
    if StartsWith(id, HostedZonePrefix) then
      assert id == id[..|HostedZonePrefix|] + id[|HostedZonePrefix|..];
      id[|HostedZonePrefix|..]
    else id
  }

  /** `[A-Z0-9]`, without the case-insensitive flag. */
  predicate IsZoneIdChar(c: char) {
    IsUpper(c) || IsDigit(c)
  }

  /** `^[A-Z0-9]{14,32}$` applied to the cleaned input (`$` also accepts a final line feed). */
  predicate LooksLikeZoneId(input: string)
    ensures LooksLikeZoneId(input) ==> '.' !in input && 14 <= |input|
  {
    var c := Chomp(CleanZoneId(input));
    14 <= |c| <= 32 && forall i :: 0 <= i < |c| ==> IsZoneIdChar(c[i])
  }

  /** An ID-shaped input carries no "/", so cleaning it a second time changes nothing. */
  lemma CleanZoneIdOfZoneId(input: string)
    requires LooksLikeZoneId(input)
    ensures CleanZoneId(CleanZoneId(input)) == CleanZoneId(input)
  {
    var c := CleanZoneId(input);
    var d := Chomp(c);
    assert d[0] != '/';
    assert c[0] == d[0];
  }

  /** The map getHostedZones builds: cleaned ID to name without trailing dot, later zones winning. */
  function ZoneOptions(zones: seq<ApiZone>): map<string, string>
    decreases |zones|
  {
    if |zones| == 0 then map[]
    else
      var z := zones[|zones| - 1];
      ZoneOptions(zones[..|zones| - 1])[CleanZoneId(z.id) := RTrimChar(z.name, '.')]
  }

  lemma ZoneOptionsStep(zones: seq<ApiZone>, i: nat)
    requires i < |zones|
    ensures ZoneOptions(zones[..i + 1]) ==
      ZoneOptions(zones[..i])[CleanZoneId(zones[i].id) := RTrimChar(zones[i].name, '.')]
  {
    assert zones[..i + 1][..i] == zones[..i];
  }

  /** Every zone appears under its cleaned ID, and every entry comes from a zone, stripped of its dots. */
  lemma ZoneOptionsShape(zones: seq<ApiZone>)
    ensures forall k :: 0 <= k < |zones| ==> CleanZoneId(zones[k].id) in ZoneOptions(zones)
    ensures forall id :: id in ZoneOptions(zones) ==>
      exists k :: 0 <= k < |zones| && CleanZoneId(zones[k].id) == id && ZoneOptions(zones)[id] == RTrimChar(zones[k].name, '.')
  {
    ZoneOptionsKeys(zones);
    ZoneOptionsValues(zones);
  }

  lemma {:induction false} ZoneOptionsKeys(zones: seq<ApiZone>)
    ensures forall k :: 0 <= k < |zones| ==> CleanZoneId(zones[k].id) in ZoneOptions(zones)
    decreases |zones|
  {
    if |zones| > 0 {
      var init := zones[..|zones| - 1];
      ZoneOptionsKeys(init);
      forall k | 0 <= k < |zones| ensures CleanZoneId(zones[k].id) in ZoneOptions(zones) {
        if k < |init| { assert zones[k] == init[k]; }
      }
    }
  }

  lemma {:induction false} ZoneOptionsValues(zones: seq<ApiZone>)
    ensures forall id :: id in ZoneOptions(zones) ==>
      exists k :: 0 <= k < |zones| && CleanZoneId(zones[k].id) == id && ZoneOptions(zones)[id] == RTrimChar(zones[k].name, '.')
    decreases |zones|
  {
    if |zones| > 0 {
      var init := zones[..|zones| - 1];
      var last := zones[|zones| - 1];
      ZoneOptionsValues(init);
      forall id | id in ZoneOptions(zones)
        ensures exists k :: 0 <= k < |zones| && CleanZoneId(zones[k].id) == id && ZoneOptions(zones)[id] == RTrimChar(zones[k].name, '.')
      {
        if id != CleanZoneId(last.id) {
          assert ZoneOptions(zones)[id] == ZoneOptions(init)[id];
          var k :| 0 <= k < |init| && CleanZoneId(init[k].id) == id && ZoneOptions(init)[id] == RTrimChar(init[k].name, '.');
          assert zones[k] == init[k];
        } else {
          assert ZoneOptions(zones)[id] == RTrimChar(last.name, '.');
        }
      }
    }
  }

  /** The zone the API answers for a cleaned ID: the first whose cleaned ID matches. */
  function FindZone(zones: seq<ApiZone>, id: string): (r: Option<ApiZone>)
    ensures r.Some? ==> r.value in zones && CleanZoneId(r.value.id) == id
    ensures r.None? ==> forall k :: 0 <= k < |zones| ==> CleanZoneId(zones[k].id) != id
    decreases |zones|
  {
    if |zones| == 0 then None
    else if CleanZoneId(zones[0].id) == id then Some(zones[0])
    else
      var r := FindZone(zones[1..], id);
      assert forall k :: 1 <= k < |zones| ==> zones[k] == zones[1..][k - 1];
      r
  }

  //
  // The order of the options array
  // ----

  /** Whether an entry of the ordered options array has the key `id`. */
  predicate HasKey(entries: seq<(string, string)>, id: string) {
    exists k :: 0 <= k < |entries| && entries[k].0 == id
  }

  /**
   * `$options[$id] = $name` on an ordered PHP array: an existing key keeps its place and
   * takes the new name; a new key goes at the end.
   */
  function SetEntry(entries: seq<(string, string)>, id: string, name: string): (r: seq<(string, string)>)
    ensures |r| == if HasKey(entries, id) then |entries| else |entries| + 1
    ensures HasKey(r, id)
    ensures forall k :: 0 <= k < |r| && r[k].0 == id ==> r[k].1 == name
    ensures forall k :: 0 <= k < |entries| && entries[k].0 != id ==> r[k] == entries[k]
    ensures forall k :: 0 <= k < |r| && r[k].0 != id ==> k < |entries| && r[k] == entries[k]
  {
    if HasKey(entries, id) then
      var r := seq(|entries|, k requires 0 <= k < |entries| => if entries[k].0 == id then (id, name) else entries[k]);
      var j :| 0 <= j < |entries| && entries[j].0 == id;
      assert r[j].0 == id;
      r
    else
      var r := entries + [(id, name)];
      assert r[|entries|].0 == id;
      r
  }

  /** The options array getHostedZones builds, in key order: each cleaned ID where it was first listed. */
  function ZoneEntries(zones: seq<ApiZone>): seq<(string, string)>
    decreases |zones|
  {
    if |zones| == 0 then []
    else
      var z := zones[|zones| - 1];
      SetEntry(ZoneEntries(zones[..|zones| - 1]), CleanZoneId(z.id), RTrimChar(z.name, '.'))
  }

  /** The ordered array holds the same entries as the option map, each key once. */
  lemma {:induction false} ZoneEntriesAgree(zones: seq<ApiZone>)
    ensures forall k :: 0 <= k < |ZoneEntries(zones)| ==>
      ZoneEntries(zones)[k].0 in ZoneOptions(zones) && ZoneOptions(zones)[ZoneEntries(zones)[k].0] == ZoneEntries(zones)[k].1
    ensures forall id :: id in ZoneOptions(zones) ==> HasKey(ZoneEntries(zones), id)
    decreases |zones|
  {
    if |zones| > 0 {
      var init := zones[..|zones| - 1];
      var z := zones[|zones| - 1];
      ZoneEntriesAgree(init);
      var prev := ZoneEntries(init);
      var id := CleanZoneId(z.id);
      assert ZoneOptions(zones) == ZoneOptions(init)[id := RTrimChar(z.name, '.')];
      forall i | i in ZoneOptions(zones) ensures HasKey(ZoneEntries(zones), i) {
        if i != id {
          var k :| 0 <= k < |prev| && prev[k].0 == i;
          assert ZoneEntries(zones)[k] == prev[k];
        }
      }
    }
  }

  /**
   * The entry that `foreach` meets first once `asort` has ordered the options by name: among
   * the entries whose lower-cased name is `domain`, the one with the byte-wise least name, and
   * of those the earliest (`asort` keeps equal names in their order).
   */
  function FirstByName(entries: seq<(string, string)>, domain: string): (r: Option<nat>)
    ensures r.Some? ==> r.value < |entries| && ToLower(entries[r.value].1) == domain
    decreases |entries|
  {
    if |entries| == 0 then None
    else
      var n := |entries| - 1;
      var prev := FirstByName(entries[..n], domain);
      if ToLower(entries[n].1) != domain then prev
      else if prev.Some? && LexLe(entries[prev.value].1, entries[n].1) then prev
      else Some(n)
  }

  /**
   * FirstByName finds a match exactly when there is one, and the match it finds has the
   * least name among the matches, the earliest one among equal names.
   */
  lemma {:induction false} FirstByNameLeast(entries: seq<(string, string)>, domain: string)
    ensures FirstByName(entries, domain).None? <==> forall k :: 0 <= k < |entries| ==> ToLower(entries[k].1) != domain
    ensures var r := FirstByName(entries, domain);
      r.Some? ==> forall k :: 0 <= k < |entries| && ToLower(entries[k].1) == domain ==>
        LexLess(entries[r.value].1, entries[k].1) || (entries[k].1 == entries[r.value].1 && r.value <= k)
    decreases |entries|
  {
    if |entries| > 0 {
      var n := |entries| - 1;
      var init := entries[..n];
      FirstByNameLeast(init, domain);
      assert forall k :: 0 <= k < n ==> init[k] == entries[k];
      var prev := FirstByName(init, domain);
      if ToLower(entries[n].1) == domain && prev.Some? && !LexLe(entries[prev.value].1, entries[n].1) {
        NewLeastName(entries, domain, prev.value, n);
      }
    }
  }

  /** A name below the least one so far is below every earlier matching name. */
  lemma NewLeastName(entries: seq<(string, string)>, domain: string, p: nat, n: nat)
    requires p < n < |entries| && !LexLe(entries[p].1, entries[n].1)
    requires forall k :: 0 <= k < n && ToLower(entries[k].1) == domain ==>
      LexLess(entries[p].1, entries[k].1) || (entries[k].1 == entries[p].1 && p <= k)
    ensures forall k :: 0 <= k < n && ToLower(entries[k].1) == domain ==> LexLess(entries[n].1, entries[k].1)
  {
    var q := entries[p].1;
    LexTotal(q, entries[n].1);
    forall k | 0 <= k < n && ToLower(entries[k].1) == domain
      ensures LexLess(entries[n].1, entries[k].1)
    {
      if q != entries[k].1 {
        LexLessTransitive(entries[n].1, q, entries[k].1);
      }
    }
  }

  lemma FirstByNameWhole(entries: seq<(string, string)>, domain: string)
    ensures FirstByName(entries[..|entries|], domain) == FirstByName(entries, domain)
  {
    assert entries[..|entries|] == entries;
  }

  lemma FirstByNameStep(entries: seq<(string, string)>, domain: string, i: nat)
    requires i < |entries|
    ensures FirstByName(entries[..i], domain).Some? ==> FirstByName(entries[..i], domain).value < i
    ensures FirstByName(entries[..i + 1], domain) ==
      var prev := FirstByName(entries[..i], domain);
      if ToLower(entries[i].1) != domain then prev
      else if prev.Some? && LexLe(entries[prev.value].1, entries[i].1) then prev
      else Some(i)
  {
    assert entries[..i + 1][..i] == entries[..i];
  }

  /** The scan over the options for the zone named `domain`, in the order the sorted array is walked. */
  method PickByName(entries: seq<(string, string)>, domain: string) returns (r: Option<nat>)
    ensures r == FirstByName(entries, domain)
  {
    r := None;
    var i := 0;
    while i < |entries|
      invariant i <= |entries|
      invariant r == FirstByName(entries[..i], domain)
      invariant r.Some? ==> r.value < i
    {
      FirstByNameStep(entries, domain, i);
      if ToLower(entries[i].1) == domain && (r.None? || !LexLe(entries[r.value].1, entries[i].1)) {
        r := Some(i);
      }
      i := i + 1;
    }
    FirstByNameWhole(entries, domain);
  }

  /** Whether some zone of `options` has the name `domain`, compared in lower case. */
  predicate HasZoneNamed(options: map<string, string>, domain: string) {
    exists id :: id in options && ToLower(options[id]) == domain
  }

  /** The zone resolver of one process: the account's zones and the ID-to-name cache. */
  class ZoneService {
    /** The hosted zones of the account, as the API lists them. */
    const account: seq<ApiZone>
    var zoneCache: map<string, string>
    /** The number of Route53 API requests made so far. */
    var apiCalls: nat

    constructor (account: seq<ApiZone>)
      ensures this.account == account && zoneCache == map[] && apiCalls == 0
    {
      this.account := account;
      zoneCache := map[];
      apiCalls := 0;
    }

    /** Every zone of the account, by cleaned ID; every entry is also put into the cache. */
    method GetHostedZones() returns (options: map<string, string>)
      modifies this
      ensures options == ZoneOptions(account)
      ensures zoneCache == old(zoneCache) + options
      ensures apiCalls == old(apiCalls) + 1
    {
      apiCalls := apiCalls + 1;
      options := map[];
      var i := 0;
      while i < |account|
        invariant i <= |account|
        invariant options == ZoneOptions(account[..i])
        invariant zoneCache == old(zoneCache) + options
        invariant apiCalls == old(apiCalls) + 1
      {
        var z := account[i];
        var id := CleanZoneId(z.id);
        var name := RTrimChar(z.name, '.');
        ZoneOptionsStep(account, i);
        MergeUpdate(old(zoneCache), options, id, name);
        options := options[id := name];
        zoneCache := zoneCache[id := name];
        i := i + 1;
      }
      assert account[..i] == account;
    }

    /** The name of a zone: from the cache when present, otherwise asked of the API and cached. */
    method GetHostedZoneName(zoneId: string) returns (r: Result<string, ZoneError>)
      modifies this
      ensures var id := CleanZoneId(zoneId);
        if id in old(zoneCache) then
          r == Ok(old(zoneCache)[id]) && zoneCache == old(zoneCache) && apiCalls == old(apiCalls)
        else
          apiCalls == old(apiCalls) + 1
          && match FindZone(account, id)
             case None => r == Err(ZoneNotFound(id)) && zoneCache == old(zoneCache)
             case Some(z) =>
               r == Ok(RTrimChar(z.name, '.')) && zoneCache == old(zoneCache)[id := RTrimChar(z.name, '.')]
    {
      var id := CleanZoneId(zoneId);
      if id in zoneCache {
        return Ok(zoneCache[id]);
      }
      apiCalls := apiCalls + 1;
      var found := FindZone(account, id);
      if found.None? {
        return Err(ZoneNotFound(id));
      }
      var name := RTrimChar(found.value.name, '.');
      zoneCache := zoneCache[id := name];
      return Ok(name);
    }

    /**
     * The cleaned zone ID for an ID or a domain: an ID-shaped input is checked to exist and
     * returned cleaned; a domain is matched case-insensitively, ignoring a trailing dot,
     * against the names of all zones, walked in name order.
     */
    method GetHostedZoneId(zoneOrDomain: string) returns (r: Result<string, ZoneError>)
      modifies this
      ensures LooksLikeZoneId(zoneOrDomain) ==>
        var id := CleanZoneId(zoneOrDomain);
        (r.Ok? <==> id in old(zoneCache) || FindZone(account, id).Some?) && (r.Ok? ==> r.value == id)
        && (id in old(zoneCache) ==> zoneCache == old(zoneCache) && apiCalls == old(apiCalls))
        && (id !in old(zoneCache) ==> apiCalls == old(apiCalls) + 1)
        && (id !in old(zoneCache) && FindZone(account, id).None? ==>
              r == Err(ZoneNotFound(id)) && zoneCache == old(zoneCache))
        && (id !in old(zoneCache) && FindZone(account, id).Some? ==>
              zoneCache == old(zoneCache)[id := RTrimChar(FindZone(account, id).value.name, '.')])
      ensures !LooksLikeZoneId(zoneOrDomain) ==>
        var options := ZoneOptions(account);
        var domain := RTrimChar(ToLower(zoneOrDomain), '.');
        var pick := FirstByName(ZoneEntries(account), domain);
        (pick.None? ==> r == Err(NoZoneForDomain(zoneOrDomain)))
        && (pick.Some? ==> r == Ok(ZoneEntries(account)[pick.value].0))
        && (r.Ok? <==> HasZoneNamed(options, domain))
        && (r.Ok? ==> r.value in options && ToLower(options[r.value]) == domain)
        && zoneCache == old(zoneCache) + options && apiCalls == old(apiCalls) + 1
    {
      if LooksLikeZoneId(zoneOrDomain) {
        var zoneId := CleanZoneId(zoneOrDomain);
        CleanZoneIdOfZoneId(zoneOrDomain);
        var name := GetHostedZoneName(zoneId);
        if name.Err? {
          return Err(name.error);
        }
        return Ok(zoneId);
      }
      var zones := GetHostedZones();
      var domain := RTrimChar(ToLower(zoneOrDomain), '.');
      // The options array in key order, as getHostedZones fills it before `asort`.
      var entries := ZoneEntries(account);
      ZoneEntriesAgree(account);
      var pick := PickByName(entries, domain);
      FirstByNameLeast(entries, domain);
      if pick.None? {
        assert !HasZoneNamed(zones, domain) by {
          forall id | id in zones ensures ToLower(zones[id]) != domain {
            var k :| 0 <= k < |entries| && entries[k].0 == id;
          }
        }
        return Err(NoZoneForDomain(zoneOrDomain));
      }
      return Ok(entries[pick.value].0);
    }

    /** Empties the cache. */
    method ClearCache()
      modifies this
      ensures zoneCache == map[] && apiCalls == old(apiCalls)
    {
      zoneCache := map[];
    }
  }

  /** A second lookup of the same zone is answered from the cache, without an API call. */
  method NameLookupTwice(service: ZoneService, zoneId: string) returns (first: Result<string, ZoneError>, second: Result<string, ZoneError>)
    modifies service
    ensures first.Ok? ==> second == first && service.apiCalls <= old(service.apiCalls) + 1
  {
    first := service.GetHostedZoneName(zoneId);
    second := service.GetHostedZoneName(zoneId);
  }
}
