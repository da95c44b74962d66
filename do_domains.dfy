/**
 * DigitalOcean domain resolution.  DigitalOcean identifies a domain by its name, so the
 * process-local cache maps each known domain name to itself.
 */
module DoDomains {
  import opened Wrappers
  import opened Collections

  datatype DomainError =
    /** "Failed to fetch domains: " followed by the provider's message. */
    | FetchFailed(message: string)
    /** "Domain '<d>' not found in your DigitalOcean account". */
    | DomainNotFound(domain: string)
    /** "Failed to validate domain '<d>': " followed by the provider's message. */
    | ValidateFailed(domain: string, message: string)

  /** The identity map over a list of domain names. */
  function IdentityMap(names: seq<string>): (m: map<string, string>)
    ensures forall n :: n in m <==> n in names
    ensures forall n :: n in m ==> m[n] == n
  {
    map n | n in names :: n
  }

  lemma IdentityMapStep(names: seq<string>, i: nat)
    requires i < |names|
    ensures IdentityMap(names[..i + 1]) == IdentityMap(names[..i])[names[i] := names[i]]
  {
    assert names[..i + 1] == names[..i] + [names[i]];
  }

  /** The resolver of one process: the account's domain names and the domain cache. */
  class DoDomainResolver {
    /** The domain names of the account, as the API lists them. */
    const account: seq<string>
    /** A provider failure every request reports, or None while the provider answers. */
    var failure: Option<string>
    var domainCache: map<string, string>
    /** The number of DigitalOcean API requests made so far. */
    var apiCalls: nat

    /** Every cache entry maps a domain of the account to itself. */
    predicate Valid()
      reads this
    {
      forall n :: n in domainCache ==> domainCache[n] == n && n in account
    }

    constructor (account: seq<string>, failure: Option<string>)
      ensures this.account == account && this.failure == failure
      ensures domainCache == map[] && apiCalls == 0 && Valid()
    {
      this.account := account;
      this.failure := failure;
      domainCache := map[];
      apiCalls := 0;
    }

    /** getDomains: every domain of the account mapped to itself, each also cached. */
    method GetDomains() returns (r: Result<map<string, string>, DomainError>)
      requires Valid()
      modifies this
      ensures Valid() && failure == old(failure) && apiCalls == old(apiCalls) + 1
      ensures old(failure).Some? ==> r == Err(FetchFailed(old(failure).value)) && domainCache == old(domainCache)
      ensures old(failure).None? ==> r == Ok(IdentityMap(account)) && domainCache == old(domainCache) + r.value
    {
      apiCalls := apiCalls + 1;
      if failure.Some? {
        return Err(FetchFailed(failure.value));
      }
      var options: map<string, string> := map[];
      var i := 0;
      while i < |account|
        invariant i <= |account|
        invariant options == IdentityMap(account[..i])
        invariant domainCache == old(domainCache) + options
        invariant failure == old(failure) && apiCalls == old(apiCalls) + 1
        invariant Valid()
      {
        var name := account[i];
        IdentityMapStep(account, i);
        MergeUpdate(old(domainCache), options, name, name);
        options := options[name := name];
        domainCache := domainCache[name := name];
        i := i + 1;
      }
      assert account[..i] == account;
      return Ok(options);
    }

    /**
     * getDomainName: a cached domain is answered from the cache; otherwise the domain is
     * looked up by name and, when the account has it, cached and returned.
     */
    method GetDomainName(domain: string) returns (r: Result<string, DomainError>)
      requires Valid()
      modifies this
      ensures Valid() && failure == old(failure)
      ensures domain in old(domainCache) ==>
        r == Ok(domain) && domainCache == old(domainCache) && apiCalls == old(apiCalls)
      ensures domain !in old(domainCache) ==> apiCalls == old(apiCalls) + 1
      ensures domain !in old(domainCache) && old(failure).Some? ==>
        r == Err(ValidateFailed(domain, old(failure).value)) && domainCache == old(domainCache)
      ensures domain !in old(domainCache) && old(failure).None? ==>
        if domain in account then r == Ok(domain) && domainCache == old(domainCache)[domain := domain]
        else r == Err(DomainNotFound(domain)) && domainCache == old(domainCache)
    {
      if domain in domainCache {
        return Ok(domainCache[domain]);
      }
      apiCalls := apiCalls + 1;
      if failure.Some? {
        return Err(ValidateFailed(domain, failure.value));
      }
      if domain !in account {
        return Err(DomainNotFound(domain));
      }
      domainCache := domainCache[domain := domain];
      return Ok(domain);
    }

    /** clearCache: the cache is emptied. */
    method ClearCache()
      requires Valid()
      modifies this
      ensures Valid() && failure == old(failure) && apiCalls == old(apiCalls)
      ensures domainCache == map[]
    {
      domainCache := map[];
    }
  }

  /**
   * Whatever the cache held, resolving a domain gives the domain itself or an error; a second
   * resolution after a success is answered from the cache.
   */
  method DomainNameTwice(resolver: DoDomainResolver, domain: string) returns (first: Result<string, DomainError>, second: Result<string, DomainError>)
    requires resolver.Valid()
    modifies resolver
    ensures first.Ok? ==> first.value == domain && domain in resolver.account
    ensures first.Ok? ==> second == first && resolver.apiCalls <= old(resolver.apiCalls) + 1
  {
    first := resolver.GetDomainName(domain);
    second := resolver.GetDomainName(domain);
  }
}
