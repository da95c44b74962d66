/**
 * Cloudflare zone resolution: a zone name is resolved to its zone ID through a
 * process-local cache from zone name to zone ID, and a zone ID back to its name through a
 * reverse lookup in the same cache.
 */
module CfZones {
  import opened Wrappers
  import opened PhpStrings
  import opened Collections
  import CloudflareInput

  /** A zone as the API reports it. */
  datatype CfZone = CfZone(id: string, name: string)

  datatype CfZoneError =
    | NoZoneNamed(name: string)
    | NoZoneWithId(zoneId: string)

  /** The page size getZones asks for; only the first page is read. */
  const ZonesPerPage: nat := 50

  /** The first zone the API answers for a name query (exact name). */
  function FirstNamed(zones: seq<CfZone>, name: string): (r: Option<CfZone>)
    ensures r.Some? ==> r.value in zones && r.value.name == name
    ensures r.None? ==> forall k :: 0 <= k < |zones| ==> zones[k].name != name
    decreases |zones|
  {
    if |zones| == 0 then None
    else if zones[0].name == name then Some(zones[0])
    else
      var r := FirstNamed(zones[1..], name);
      assert forall k :: 1 <= k < |zones| ==> zones[k] == zones[1..][k - 1];
      r
  }

  /** The zone the API answers for an ID. */
  function WithId(zones: seq<CfZone>, id: string): (r: Option<CfZone>)
    ensures r.Some? ==> r.value in zones && r.value.id == id
    ensures r.None? ==> forall k :: 0 <= k < |zones| ==> zones[k].id != id
    decreases |zones|
  {
    if |zones| == 0 then None
    else if zones[0].id == id then Some(zones[0])
    else
      var r := WithId(zones[1..], id);
      assert forall k :: 1 <= k < |zones| ==> zones[k] == zones[1..][k - 1];
      r
  }

  /** The map getZones builds from a page of zones: name to ID, later zones winning. */
  function ZoneMap(zones: seq<CfZone>): map<string, string>
    decreases |zones|
  {
    if |zones| == 0 then map[]
    else
      var z := zones[|zones| - 1];
      ZoneMap(zones[..|zones| - 1])[z.name := z.id]
  }

  lemma ZoneMapStep(zones: seq<CfZone>, i: nat)
    requires i < |zones|
    ensures ZoneMap(zones[..i + 1]) == ZoneMap(zones[..i])[zones[i].name := zones[i].id]
  {
    assert zones[..i + 1][..i] == zones[..i];
  }

  /** Every zone's name is a key, and every entry pairs a zone's name with that zone's ID. */
  lemma {:induction false} ZoneMapShape(zones: seq<CfZone>)
    ensures forall k :: 0 <= k < |zones| ==> zones[k].name in ZoneMap(zones)
    ensures forall name :: name in ZoneMap(zones) ==> CfZone(ZoneMap(zones)[name], name) in zones
    decreases |zones|
  {
    if |zones| > 0 {
      var init := zones[..|zones| - 1];
      ZoneMapShape(init);
      forall name | name in ZoneMap(zones) ensures CfZone(ZoneMap(zones)[name], name) in zones {
        if name != zones[|zones| - 1].name {
          assert CfZone(ZoneMap(init)[name], name) in init;
        }
      }
      forall k | 0 <= k < |zones| ensures zones[k].name in ZoneMap(zones) {
        if k < |init| { assert zones[k] == init[k]; }
      }
    }
  }

  /** No two zones share an ID. */
  predicate DistinctZoneIds(zones: seq<CfZone>) {
    forall i, j :: 0 <= i < j < |zones| ==> zones[i].id != zones[j].id
  }

  /** Every cache entry pairs a zone's name with that zone's ID. */
  predicate CacheSound(zones: seq<CfZone>, cache: map<string, string>) {
    forall name :: name in cache ==> CfZone(cache[name], name) in zones
  }

  /** The resolver of one process: the account's zones and the name-to-ID cache. */
  class ZoneResolver {
    /** The zones of the account, as the API lists them. */
    const account: seq<CfZone>
    var zoneCache: map<string, string>
    /** The number of Cloudflare API requests made so far. */
    var apiCalls: nat

    predicate Valid()
      reads this
    {
      DistinctZoneIds(account) && CacheSound(account, zoneCache)
    }

    constructor (account: seq<CfZone>)
      requires DistinctZoneIds(account)
      ensures this.account == account && zoneCache == map[] && apiCalls == 0 && Valid()
    {
      this.account := account;
      zoneCache := map[];
      apiCalls := 0;
    }

    /**
     * getZoneId: a 32-character hex input is returned as it is; a cached name is answered
     * from the cache; otherwise the first zone with that name is asked of the API and cached.
     */
    method GetZoneId(zoneOrDomain: string) returns (r: Result<string, CfZoneError>)
      requires Valid()
      modifies this
      ensures Valid()
      ensures CloudflareInput.ZoneIdShape(Chomp(zoneOrDomain)) ==>
        r == Ok(zoneOrDomain) && zoneCache == old(zoneCache) && apiCalls == old(apiCalls)
      ensures !CloudflareInput.ZoneIdShape(Chomp(zoneOrDomain)) && zoneOrDomain in old(zoneCache) ==>
        r == Ok(old(zoneCache)[zoneOrDomain]) && zoneCache == old(zoneCache) && apiCalls == old(apiCalls)
      ensures !CloudflareInput.ZoneIdShape(Chomp(zoneOrDomain)) && zoneOrDomain !in old(zoneCache) ==>
        apiCalls == old(apiCalls) + 1
        && match FirstNamed(account, zoneOrDomain)
           case None => r == Err(NoZoneNamed(zoneOrDomain)) && zoneCache == old(zoneCache)
           case Some(z) => r == Ok(z.id) && zoneCache == old(zoneCache)[zoneOrDomain := z.id]
    {
      if CloudflareInput.ZoneIdShape(Chomp(zoneOrDomain)) {
        return Ok(zoneOrDomain);
      }
      if zoneOrDomain in zoneCache {
        return Ok(zoneCache[zoneOrDomain]);
      }
      apiCalls := apiCalls + 1;
      var found := FirstNamed(account, zoneOrDomain);
      if found.None? {
        return Err(NoZoneNamed(zoneOrDomain));
      }
      zoneCache := zoneCache[zoneOrDomain := found.value.id];
      return Ok(found.value.id);
    }

    /**
     * getZoneName: a name cached under the ID is answered from the cache; otherwise the zone
     * is asked of the API by ID and its name is cached.  Either way the answer is the name
     * of the zone with that ID.
     */
    method GetZoneName(zoneId: string) returns (r: Result<string, CfZoneError>)
      requires Valid()
      modifies this
      ensures Valid()
      ensures r.Ok? <==> WithId(account, zoneId).Some?
      ensures r.Ok? ==> r.value == WithId(account, zoneId).value.name
      ensures r.Err? ==> r == Err(NoZoneWithId(zoneId))
      ensures (exists name :: name in old(zoneCache) && old(zoneCache)[name] == zoneId) ==>
        zoneCache == old(zoneCache) && apiCalls == old(apiCalls)
      ensures (forall name :: name in old(zoneCache) ==> old(zoneCache)[name] != zoneId) ==>
        apiCalls == old(apiCalls) + 1
        && zoneCache == if r.Ok? then old(zoneCache)[r.value := zoneId] else old(zoneCache)
    {
      if name :| name in zoneCache && zoneCache[name] == zoneId {
        assert CfZone(zoneId, name) in account;
        SoleZoneWithId(account, CfZone(zoneId, name));
        return Ok(name);
      }
      apiCalls := apiCalls + 1;
      var found := WithId(account, zoneId);
      if found.None? {
        return Err(NoZoneWithId(zoneId));
      }
      zoneCache := zoneCache[found.value.name := zoneId];
      return Ok(found.value.name);
    }

    /** getZones: the first page of zones as a name-to-ID map, every entry also cached. */
    method GetZones() returns (zones: map<string, string>)
      requires Valid()
      modifies this
      ensures Valid()
      ensures zones == ZoneMap(FirstPage(account))
      ensures zoneCache == old(zoneCache) + zones
      ensures apiCalls == old(apiCalls) + 1
    {
      apiCalls := apiCalls + 1;
      var results := FirstPage(account);
      zones := map[];
      var i := 0;
      while i < |results|
        invariant i <= |results|
        invariant zones == ZoneMap(results[..i])
        invariant zoneCache == old(zoneCache) + zones
        invariant apiCalls == old(apiCalls) + 1
      {
        var z := results[i];
        ZoneMapStep(results, i);
        MergeUpdate(old(zoneCache), zones, z.name, z.id);
        zones := zones[z.name := z.id];
        zoneCache := zoneCache[z.name := z.id];
        i := i + 1;
      }
      assert results[..i] == results;
      ZoneMapShape(results);
      assert CacheSound(account, zoneCache) by {
        forall name | name in zoneCache ensures CfZone(zoneCache[name], name) in account {
          if name in zones {
            assert CfZone(zones[name], name) in results;
          }
        }
      }
    }

    /** clearCache: the cache is emptied. */
    method ClearCache()
      requires Valid()
      modifies this
      ensures Valid()
      ensures zoneCache == map[] && apiCalls == old(apiCalls)
    {
      zoneCache := map[];
    }
  }

  /** The zones on the first page of the listing. */
  function FirstPage(zones: seq<CfZone>): (page: seq<CfZone>)
    ensures |page| <= ZonesPerPage && forall z :: z in page ==> z in zones
  {
    if |zones| <= ZonesPerPage then zones else zones[..ZonesPerPage]
  }

  /** With distinct IDs, a zone of the account is the one the API answers for its ID. */
  lemma SoleZoneWithId(zones: seq<CfZone>, z: CfZone)
    requires DistinctZoneIds(zones) && z in zones
    ensures WithId(zones, z.id) == Some(z)
  {
    var w := WithId(zones, z.id);
    var i :| 0 <= i < |zones| && zones[i] == z;
    var j :| 0 <= j < |zones| && zones[j] == w.value;
    assert i == j;
  }

  /** A second resolution of the same name is answered from the cache with the same ID. */
  method ZoneIdLookupTwice(resolver: ZoneResolver, domain: string) returns (first: Result<string, CfZoneError>, second: Result<string, CfZoneError>)
    requires resolver.Valid()
    modifies resolver
    ensures first.Ok? ==> second == first && resolver.apiCalls <= old(resolver.apiCalls) + 1
  {
    first := resolver.GetZoneId(domain);
    second := resolver.GetZoneId(domain);
  }
}
