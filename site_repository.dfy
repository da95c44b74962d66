/**
 * The site inventory: the list of stored site entries kept under the inventory's "sites"
 * key.  Sites are stored in a compact array form (dehydrated) and read back through the
 * site builder (hydrated); every change is written back to the inventory at once.
 */
module SiteRepository {
  import opened Wrappers
  import opened PhpValues
  import opened Dtos
  import opened Builders

  datatype RepoError =
    /** "Inventory not set. Call loadInventory() first." */
    | NotLoaded
    | SiteExists(domain: string)
    | SiteNotFound(domain: string)
    | CronExists(script: string, domain: string)
    | SupervisorExists(program: string, domain: string)
    /** A stored entry that is not an array cannot be hydrated. */
    | MalformedEntry
    /** A stored entry that the builders reject. */
    | Invalid(reason: BuildError)

  //
  // Dehydration
  // ----

  /** A PHP list: the items under the keys 0, 1, 2, ... */
  function ListOf<T>(xs: seq<T>, dehydrate: T -> seq<(Key, Value)>): (l: seq<(Key, Value)>)
    ensures |l| == |xs|
    ensures forall i :: 0 <= i < |xs| ==> l[i] == (KeyInt(i), Arr(dehydrate(xs[i])))
  {
    seq(|xs|, i requires 0 <= i < |xs| => (KeyInt(i), Arr(dehydrate(xs[i]))))
  }

  function DehydrateCron(c: CronDto): seq<(Key, Value)> {
    [(KeyStr("script"), Str(c.script)), (KeyStr("schedule"), Str(c.schedule))]
  }

  function DehydrateSupervisor(s: SupervisorDto): seq<(Key, Value)> {
    [(KeyStr("program"), Str(s.program)),
     (KeyStr("script"), Str(s.script)),
     (KeyStr("autostart"), Bool(s.autostart)),
     (KeyStr("autorestart"), Bool(s.autorestart)),
     (KeyStr("stopwaitsecs"), Int(s.stopwaitsecs)),
     (KeyStr("numprocs"), Int(s.numprocs))]
  }

  /** A single entry. */
  function Entry(key: string, v: Value): (p: seq<(Key, Value)>)
    ensures Lookup(p, KeyStr(key)) == Some(v)
    ensures forall k :: k != KeyStr(key) ==> Lookup(p, k).None?
  {
    [(KeyStr(key), v)]
  }

  /** An entry written only when `present` holds. */
  function Part(present: bool, key: string, v: Value): (p: seq<(Key, Value)>)
    ensures Lookup(p, KeyStr(key)) == if present then Some(v) else None
    ensures forall k :: k != KeyStr(key) ==> Lookup(p, k).None?
  {
    if present then [(KeyStr(key), v)] else []
  }

  /** An optional string entry, written only when set. */
  function OptPart(key: string, o: Option<string>): (p: seq<(Key, Value)>)
    ensures Lookup(p, KeyStr(key)) == if o.Some? then Some(Str(o.value)) else None
    ensures forall k :: k != KeyStr(key) ==> Lookup(p, k).None?
  {
    if o.Some? then [(KeyStr(key), Str(o.value))] else []
  }

  /**
   * dehydrateSiteDTO: domain, server and PHP version always; repository and branch only
   * when set; the web root only when it is not "public"; the nested lists only when non-empty.
   */
  function DehydrateSite(s: SiteDto): seq<(Key, Value)> {
    Entry("domain", Str(s.domain))
    + Entry("server", Str(s.server))
    + OptPart("repo", s.repo)
    + OptPart("branch", s.branch)
    + Entry("php_version", Str(s.phpVersion))
    + Part(s.webRoot != DefaultWebRoot, "web_root", Str(s.webRoot))
    + Part(s.crons != [], "crons", Arr(ListOf(s.crons, DehydrateCron)))
    + Part(s.supervisors != [], "supervisors", Arr(ListOf(s.supervisors, DehydrateSupervisor)))
  }

  /** `a ?? b` on lookups: the first that found something. */
  function OrElse(a: Option<Value>, b: Option<Value>): Option<Value> {
    if a.Some? then a else b
  }

  /** The value under a key of a dehydrated site: the first of its parts that has the key. */
  lemma DehydratedLookup(s: SiteDto, k: Key)
    ensures Lookup(DehydrateSite(s), k) ==
      OrElse(Lookup(Entry("domain", Str(s.domain)), k),
      OrElse(Lookup(Entry("server", Str(s.server)), k),
      OrElse(Lookup(OptPart("repo", s.repo), k),
      OrElse(Lookup(OptPart("branch", s.branch), k),
      OrElse(Lookup(Entry("php_version", Str(s.phpVersion)), k),
      OrElse(Lookup(Part(s.webRoot != DefaultWebRoot, "web_root", Str(s.webRoot)), k),
      OrElse(Lookup(Part(s.crons != [], "crons", Arr(ListOf(s.crons, DehydrateCron))), k),
        Lookup(Part(s.supervisors != [], "supervisors", Arr(ListOf(s.supervisors, DehydrateSupervisor))), k))))))))
  {
    var p0 := Entry("domain", Str(s.domain));
    var p1 := Entry("server", Str(s.server));
    var p2 := OptPart("repo", s.repo);
    var p3 := OptPart("branch", s.branch);
    var p4 := Entry("php_version", Str(s.phpVersion));
    var p5 := Part(s.webRoot != DefaultWebRoot, "web_root", Str(s.webRoot));
    var p6 := Part(s.crons != [], "crons", Arr(ListOf(s.crons, DehydrateCron)));
    var p7 := Part(s.supervisors != [], "supervisors", Arr(ListOf(s.supervisors, DehydrateSupervisor)));
    LookupAppend(p0 + p1 + p2 + p3 + p4 + p5 + p6, p7, k);
    LookupAppend(p0 + p1 + p2 + p3 + p4 + p5, p6, k);
    LookupAppend(p0 + p1 + p2 + p3 + p4, p5, k);
    LookupAppend(p0 + p1 + p2 + p3, p4, k);
    LookupAppend(p0 + p1 + p2, p3, k);
    LookupAppend(p0 + p1, p2, k);
    LookupAppend(p0, p1, k);
  }

  /** The keys a dehydrated site always holds. */
  lemma DehydratedRequired(s: SiteDto)
    ensures Lookup(DehydrateSite(s), KeyStr("domain")) == Some(Str(s.domain))
    ensures Lookup(DehydrateSite(s), KeyStr("server")) == Some(Str(s.server))
    ensures Lookup(DehydrateSite(s), KeyStr("php_version")) == Some(Str(s.phpVersion))
  {
    DehydratedLookup(s, KeyStr("domain"));
    DehydratedLookup(s, KeyStr("server"));
    DehydratedLookup(s, KeyStr("php_version"));
  }

  /** The optional string keys of a dehydrated site. */
  lemma DehydratedOptional(s: SiteDto)
    ensures Lookup(DehydrateSite(s), KeyStr("repo")) == if s.repo.Some? then Some(Str(s.repo.value)) else None
    ensures Lookup(DehydrateSite(s), KeyStr("branch")) == if s.branch.Some? then Some(Str(s.branch.value)) else None
    ensures Lookup(DehydrateSite(s), KeyStr("web_root")) ==
      if s.webRoot != DefaultWebRoot then Some(Str(s.webRoot)) else None
  {
    DehydratedLookup(s, KeyStr("repo"));
    DehydratedLookup(s, KeyStr("branch"));
    DehydratedLookup(s, KeyStr("web_root"));
  }

  /** The nested lists of a dehydrated site. */
  lemma DehydratedLists(s: SiteDto)
    ensures Lookup(DehydrateSite(s), KeyStr("crons")) ==
      if s.crons != [] then Some(Arr(ListOf(s.crons, DehydrateCron))) else None
    ensures Lookup(DehydrateSite(s), KeyStr("supervisors")) ==
      if s.supervisors != [] then Some(Arr(ListOf(s.supervisors, DehydrateSupervisor))) else None
  {
    DehydratedLookup(s, KeyStr("crons"));
    DehydratedLookup(s, KeyStr("supervisors"));
  }

  /** The first entry under a key decides the lookup. */
  lemma {:induction false} LookupAt(e: seq<(Key, Value)>, i: nat, k: Key)
    requires i < |e| && e[i].0 == k
    requires forall j :: 0 <= j < i ==> e[j].0 != k
    ensures Lookup(e, k) == Some(e[i].1)
    decreases i
  {
    if i > 0 {
      LookupAt(e[1..], i - 1, k);
    }
  }

  //
  // Hydration
  // ----

  /** hydrateSiteDTO: `SiteBuilder::fromStorage($data)->build()` on an array entry. */
  function HydrateSite(v: Value): (r: Result<SiteDto, RepoError>)
    ensures r.Ok? ==> r.value.domain != "" && r.value.server != "" && r.value.phpVersion != ""
  {
    if !v.Arr? then Err(MalformedEntry)
    else
      match StoredSite(v.entries)
      case Err(e) => Err(Invalid(e))
      case Ok(s) =>
        match CheckSite(s)
        case Err(e) => Err(Invalid(e))
        case Ok(site) => Ok(site)
  }

  predicate ValidCron(c: CronDto) {
    c.script != "" && c.schedule != ""
  }

  predicate ValidSupervisor(s: SupervisorDto) {
    s.program != "" && s.script != ""
  }

  /** A site every builder accepts: the sites `build` can produce. */
  predicate ValidSite(s: SiteDto) {
    s.domain != "" && s.server != "" && s.phpVersion != ""
    && (forall i :: 0 <= i < |s.crons| ==> ValidCron(s.crons[i]))
    && (forall i :: 0 <= i < |s.supervisors| ==> ValidSupervisor(s.supervisors[i]))
  }

  /** Hydrating a list of dehydrated items gives the items back, in order. */
  lemma {:induction false} HydrateEachRoundTrip<T>(xs: seq<T>, dehydrate: T -> seq<(Key, Value)>, hydrate: seq<(Key, Value)> -> Result<T, BuildError>)
    requires forall i :: 0 <= i < |xs| ==> hydrate(dehydrate(xs[i])) == Ok(xs[i])
    ensures HydrateEach(ListOf(xs, dehydrate), hydrate) == Ok(xs)
    decreases |xs|
  {
    if |xs| > 0 {
      var n := |xs| - 1;
      var l := ListOf(xs, dehydrate);
      assert l[..n] == ListOf(xs[..n], dehydrate);
      HydrateEachRoundTrip(xs[..n], dehydrate, hydrate);
      assert xs[..n] + [xs[n]] == xs;
    }
  }

  /** A stored cron job reads back as itself when it has a script and a schedule. */
  lemma CronRoundTrip(c: CronDto)
    ensures CronFromStorage(DehydrateCron(c)) == if ValidCron(c) then Ok(c) else CheckCron(c)
  {
    var e := DehydrateCron(c);
    LookupAt(e, 0, KeyStr("script"));
    LookupAt(e, 1, KeyStr("schedule"));
  }

  /** A stored supervisor program reads back as itself when it has a name and a script. */
  lemma SupervisorRoundTrip(s: SupervisorDto)
    ensures SupervisorFromStorage(DehydrateSupervisor(s)) == if ValidSupervisor(s) then Ok(s) else CheckSupervisor(s)
  {
    var e := DehydrateSupervisor(s);
    LookupAt(e, 0, KeyStr("program"));
    LookupAt(e, 1, KeyStr("script"));
    LookupAt(e, 2, KeyStr("autostart"));
    LookupAt(e, 3, KeyStr("autorestart"));
    LookupAt(e, 4, KeyStr("stopwaitsecs"));
    LookupAt(e, 5, KeyStr("numprocs"));
  }

  /** The cron jobs of a stored site read back as they were. */
  lemma CronsRoundTrip(s: SiteDto)
    requires forall i :: 0 <= i < |s.crons| ==> ValidCron(s.crons[i])
    ensures HydrateEach(Items(Coalesce(DehydrateSite(s), KeyStr("crons"), Arr([]))), CronFromStorage) == Ok(s.crons)
  {
    DehydratedLists(s);
    forall i | 0 <= i < |s.crons| ensures CronFromStorage(DehydrateCron(s.crons[i])) == Ok(s.crons[i]) {
      CronRoundTrip(s.crons[i]);
    }
    HydrateEachRoundTrip(s.crons, DehydrateCron, CronFromStorage);
  }

  /** The supervisor programs of a stored site read back as they were. */
  lemma SupervisorsRoundTrip(s: SiteDto)
    requires forall i :: 0 <= i < |s.supervisors| ==> ValidSupervisor(s.supervisors[i])
    ensures HydrateEach(Items(Coalesce(DehydrateSite(s), KeyStr("supervisors"), Arr([]))), SupervisorFromStorage) ==
      Ok(s.supervisors)
  {
    DehydratedLists(s);
    forall i | 0 <= i < |s.supervisors|
      ensures SupervisorFromStorage(DehydrateSupervisor(s.supervisors[i])) == Ok(s.supervisors[i])
    {
      SupervisorRoundTrip(s.supervisors[i]);
    }
    HydrateEachRoundTrip(s.supervisors, DehydrateSupervisor, SupervisorFromStorage);
  }

  /** Storing a site and reading it back gives the same site. */
  lemma SiteRoundTrip(s: SiteDto)
    requires ValidSite(s)
    ensures HydrateSite(Arr(DehydrateSite(s))) == Ok(s)
  {
    var e := DehydrateSite(s);
    DehydratedRequired(s);
    DehydratedFields(s);
    CronsRoundTrip(s);
    SupervisorsRoundTrip(s);
    assert Coalesce(e, KeyStr("php_version"), Null) == Str(s.phpVersion);
    StoredSiteOk(e, s.phpVersion, s.crons, s.supervisors);
  }

  /** The scalar fields of a dehydrated site read back as they were. */
  lemma DehydratedFields(s: SiteDto)
    ensures var e := DehydrateSite(s);
      StringField(e, "domain", "") == s.domain && StringField(e, "server", "") == s.server
      && OptStringField(e, "repo") == s.repo && OptStringField(e, "branch") == s.branch
      && StringField(e, "web_root", DefaultWebRoot) == s.webRoot
  {
    DehydratedRequired(s);
    DehydratedOptional(s);
  }

  /** Every hydrated cron job has a script and a schedule. */
  lemma {:induction false} HydratedCronsValid(items: seq<(Key, Value)>)
    requires HydrateEach(items, CronFromStorage).Ok?
    ensures forall i :: 0 <= i < |HydrateEach(items, CronFromStorage).value| ==>
      ValidCron(HydrateEach(items, CronFromStorage).value[i])
    decreases |items|
  {
    if |items| > 0 {
      HydratedCronsValid(items[..|items| - 1]);
    }
  }

  /** Every hydrated supervisor program has a name and a script. */
  lemma {:induction false} HydratedSupervisorsValid(items: seq<(Key, Value)>)
    requires HydrateEach(items, SupervisorFromStorage).Ok?
    ensures forall i :: 0 <= i < |HydrateEach(items, SupervisorFromStorage).value| ==>
      ValidSupervisor(HydrateEach(items, SupervisorFromStorage).value[i])
    decreases |items|
  {
    if |items| > 0 {
      HydratedSupervisorsValid(items[..|items| - 1]);
    }
  }

  /** Every site read from storage is one the builders accept. */
  lemma HydratedSiteValid(v: Value)
    requires HydrateSite(v).Ok?
    ensures ValidSite(HydrateSite(v).value)
  {
    var data := v.entries;
    HydratedCronsValid(Items(Coalesce(data, KeyStr("crons"), Arr([]))));
    HydratedSupervisorsValid(Items(Coalesce(data, KeyStr("supervisors"), Arr([]))));
  }

  /** Every entry hydrated in order by `hydrate`; the first entry that fails stops the listing. */
  function HydrateList<T, E>(entries: seq<Value>, hydrate: Value -> Result<T, E>): (r: Result<seq<T>, E>)
    ensures r.Ok? ==> |r.value| == |entries|
    decreases |entries|
  {
    if |entries| == 0 then Ok([])
    else
      match HydrateList(entries[..|entries| - 1], hydrate)
      case Err(e) => Err(e)
      case Ok(prefix) =>
        match hydrate(entries[|entries| - 1])
        case Err(e) => Err(e)
        case Ok(x) => Ok(prefix + [x])
  }

  /** Every stored site hydrated in order; the first entry that fails stops the listing. */
  function HydrateAll(sites: seq<Value>): (r: Result<seq<SiteDto>, RepoError>)
    ensures r.Ok? ==> |r.value| == |sites|
  {
    HydrateList(sites, HydrateSite)
  }

  /** Once a prefix fails, the whole listing fails with the same error. */
  lemma {:induction false} HydrateListStopsAtError<T, E>(entries: seq<Value>, hydrate: Value -> Result<T, E>, n: nat)
    requires n <= |entries| && HydrateList(entries[..n], hydrate).Err?
    ensures HydrateList(entries, hydrate) == HydrateList(entries[..n], hydrate)
    decreases |entries| - n
  {
    if n < |entries| {
      assert entries[..n + 1][..n] == entries[..n];
      HydrateListStopsAtError(entries, hydrate, n + 1);
    } else {
      assert entries[..n] == entries;
    }
  }

  /** One more entry either fails the listing or extends it by what it hydrates to. */
  lemma HydrateListStep<T, E>(entries: seq<Value>, hydrate: Value -> Result<T, E>, i: nat, done: seq<T>)
    requires i < |entries| && HydrateList(entries[..i], hydrate) == Ok(done)
    ensures hydrate(entries[i]).Err? ==> HydrateList(entries[..i + 1], hydrate) == Err(hydrate(entries[i]).error)
    ensures hydrate(entries[i]).Ok? ==> HydrateList(entries[..i + 1], hydrate) == Ok(done + [hydrate(entries[i]).value])
  {
    assert entries[..i + 1][..i] == entries[..i];
  }

  /** A successful listing holds, at each position, what that entry hydrates to. */
  lemma {:induction false} HydrateListEntry<T, E>(entries: seq<Value>, hydrate: Value -> Result<T, E>, i: nat)
    requires HydrateList(entries, hydrate).Ok? && i < |entries|
    ensures hydrate(entries[i]) == Ok(HydrateList(entries, hydrate).value[i])
    decreases |entries|
  {
    var n := |entries| - 1;
    var init := entries[..n];
    assert HydrateList(init, hydrate).Ok? && hydrate(entries[n]).Ok?;
    var prev := HydrateList(init, hydrate).value;
    var all := HydrateList(entries, hydrate).value;
    assert all == prev + [hydrate(entries[n]).value];
    if i < n {
      HydrateListEntry(init, hydrate, i);
      assert init[i] == entries[i] && all[i] == prev[i];
    }
  }

  /** A listing holds, in order, the site hydrated from each entry. */
  lemma HydrateAllEntries(sites: seq<Value>)
    requires HydrateAll(sites).Ok?
    ensures forall i :: 0 <= i < |sites| ==> HydrateSite(sites[i]) == Ok(HydrateAll(sites).value[i])
  {
    forall i | 0 <= i < |sites| ensures HydrateSite(sites[i]) == Ok(HydrateAll(sites).value[i]) {
      HydrateListEntry(sites, HydrateSite, i);
    }
  }

  /** Hydrates the entries in order; the first failure stops. */
  method CollectHydrated<T, E>(entries: seq<Value>, hydrate: Value -> Result<T, E>) returns (r: Result<seq<T>, E>)
    ensures r == HydrateList(entries, hydrate)
  {
    var done: seq<T> := [];
    var i := 0;
    while i < |entries|
      invariant i <= |entries|
      invariant HydrateList(entries[..i], hydrate) == Ok(done)
    {
      var h := hydrate(entries[i]);
      HydrateListStep(entries, hydrate, i, done);
      if h.Err? {
        HydrateListStopsAtError(entries, hydrate, i + 1);
        return Err(h.error);
      }
      done := done + [h.value];
      i := i + 1;
    }
    assert entries[..i] == entries;
    return Ok(done);
  }

  /** The sites on a server, in order. */
  function OnServer(sites: seq<SiteDto>, server: string): (r: seq<SiteDto>)
    ensures |r| <= |sites|
    decreases |sites|
  {
    if |sites| == 0 then []
    else
      var prefix := OnServer(sites[..|sites| - 1], server);
      var last := sites[|sites| - 1];
      if last.server == server then prefix + [last] else prefix
  }

  /** Hydrates the entries in order, keeping the sites on the server; the first failure stops. */
  method SitesOnServer(sites: seq<Value>, hydrate: Value -> Result<SiteDto, RepoError>, server: string)
    returns (r: Result<seq<SiteDto>, RepoError>)
    ensures HydrateList(sites, hydrate).Err? ==> r == Err(HydrateList(sites, hydrate).error)
    ensures HydrateList(sites, hydrate).Ok? ==> r == Ok(OnServer(HydrateList(sites, hydrate).value, server))
  {
    var all: seq<SiteDto> := [];
    var filtered: seq<SiteDto> := [];
    var i := 0;
    while i < |sites|
      invariant i <= |sites|
      invariant HydrateList(sites[..i], hydrate) == Ok(all)
      invariant filtered == OnServer(all, server)
    {
      var h := hydrate(sites[i]);
      HydrateListStep(sites, hydrate, i, all);
      if h.Err? {
        HydrateListStopsAtError(sites, hydrate, i + 1);
        return Err(h.error);
      }
      OnServerStep(all, h.value, server);
      all := all + [h.value];
      if h.value.server == server {
        filtered := filtered + [h.value];
      }
      i := i + 1;
    }
    assert sites[..i] == sites;
    return Ok(filtered);
  }

  /** One more site is kept exactly when it is on the server. */
  lemma OnServerStep(sites: seq<SiteDto>, s: SiteDto, server: string)
    ensures OnServer(sites + [s], server) == if s.server == server then OnServer(sites, server) + [s] else OnServer(sites, server)
  {
    assert (sites + [s])[..|sites|] == sites;
  }

  /** The filter keeps exactly the sites on the server. */
  lemma {:induction false} OnServerExactly(sites: seq<SiteDto>, server: string)
    ensures forall i :: 0 <= i < |OnServer(sites, server)| ==>
      OnServer(sites, server)[i].server == server && OnServer(sites, server)[i] in sites
    ensures forall i :: 0 <= i < |sites| && sites[i].server == server ==> sites[i] in OnServer(sites, server)
    decreases |sites|
  {
    if |sites| > 0 {
      var init := sites[..|sites| - 1];
      OnServerExactly(init, server);
      assert forall i :: 0 <= i < |init| ==> sites[i] == init[i];
      assert forall s :: s in init ==> s in sites;
    }
  }

  //
  // Matching stored entries
  // ----

  /** `isset($entry['domain']) && $entry['domain'] === $domain`. */
  predicate HasDomain(v: Value, domain: string) {
    v.Arr? && Lookup(v.entries, KeyStr("domain")) == Some(Str(domain))
  }

  /** The domain a stored entry carries, when it carries one as a string. */
  function DomainOf(v: Value): (d: Option<string>)
    ensures d.Some? ==> HasDomain(v, d.value)
    ensures forall x :: HasDomain(v, x) ==> d == Some(x)
  {
    if v.Arr? && Lookup(v.entries, KeyStr("domain")).Some? && Lookup(v.entries, KeyStr("domain")).value.Str? then
      Some(Lookup(v.entries, KeyStr("domain")).value.s)
    else None
  }

  /** No two stored entries carry the same domain. */
  predicate DomainsUnique(sites: seq<Value>) {
    forall i, j :: 0 <= i < j < |sites| && DomainOf(sites[i]).Some? ==> DomainOf(sites[i]) != DomainOf(sites[j])
  }

  /** The index of the first entry with the domain. */
  function FirstWithDomain(sites: seq<Value>, domain: string): (r: Option<nat>)
    ensures r.Some? ==> (r.value < |sites| && HasDomain(sites[r.value], domain)
      && forall j :: 0 <= j < r.value ==> !HasDomain(sites[j], domain))
    ensures r.None? ==> forall j :: 0 <= j < |sites| ==> !HasDomain(sites[j], domain)
    decreases |sites|
  {
    if |sites| == 0 then None
    else if HasDomain(sites[0], domain) then Some(0)
    else
      match FirstWithDomain(sites[1..], domain)
      case None => None
      case Some(i) => Some(i + 1)
  }

  /** An index with the domain and none before it is the first. */
  lemma {:induction false} FirstWithDomainIs(sites: seq<Value>, domain: string, i: nat)
    requires i < |sites| && HasDomain(sites[i], domain)
    requires forall j :: 0 <= j < i ==> !HasDomain(sites[j], domain)
    ensures FirstWithDomain(sites, domain) == Some(i)
    decreases i
  {
    if i > 0 {
      FirstWithDomainIs(sites[1..], domain, i - 1);
    }
  }

  /** findByDomain: the first entry with the domain, hydrated. */
  function Find(sites: seq<Value>, domain: string): Result<Option<SiteDto>, RepoError> {
    match FirstWithDomain(sites, domain)
    case None => Ok(None)
    case Some(i) =>
      match HydrateSite(sites[i])
      case Err(e) => Err(e)
      case Ok(s) => Ok(Some(s))
  }

  /** The site found for a domain has that domain, and every builder accepts it. */
  lemma FoundHasDomain(sites: seq<Value>, domain: string)
    requires Find(sites, domain).Ok? && Find(sites, domain).value.Some?
    ensures Find(sites, domain).value.value.domain == domain
    ensures CheckSite(Find(sites, domain).value.value) == Ok(Find(sites, domain).value.value)
  {
    var i := FirstWithDomain(sites, domain).value;
    var stored := StoredSite(sites[i].entries);
    assert stored.Ok?;
    assert stored.value.domain == domain;
  }

  /** Every builder accepts the site found for a domain. */
  lemma FoundValid(sites: seq<Value>, domain: string)
    requires Find(sites, domain).Ok? && Find(sites, domain).value.Some?
    ensures ValidSite(Find(sites, domain).value.value)
  {
    HydratedSiteValid(sites[FirstWithDomain(sites, domain).value]);
  }

  /** `isset($entry['domain']) && $entry['domain'] !== $domain`: the entries delete keeps. */
  predicate Kept(v: Value, domain: string) {
    v.Arr? && IsSet(v.entries, KeyStr("domain")) && Lookup(v.entries, KeyStr("domain")) != Some(Str(domain))
  }

  /** The loop of delete: the entries that name a domain other than `domain`, in order. */
  method KeepOtherDomains(sites: seq<Value>, domain: string) returns (filtered: seq<Value>)
    ensures filtered == WithoutDomain(sites, domain)
  {
    filtered := [];
    var i := 0;
    while i < |sites|
      invariant i <= |sites|
      invariant filtered == WithoutDomain(sites[..i], domain)
    {
      assert sites[..i + 1][..i] == sites[..i];
      var v := sites[i];
      if v.Arr? && IsSet(v.entries, KeyStr("domain")) && Lookup(v.entries, KeyStr("domain")) != Some(Str(domain)) {
        filtered := filtered + [v];
      }
      i := i + 1;
    }
    assert sites[..i] == sites;
  }

  /** delete's filter: the entries kept, in order. */
  function WithoutDomain(sites: seq<Value>, domain: string): (r: seq<Value>)
    ensures forall i :: 0 <= i < |r| ==> Kept(r[i], domain) && r[i] in sites
    ensures |r| <= |sites|
    decreases |sites|
  {
    if |sites| == 0 then []
    else
      var prefix := WithoutDomain(sites[..|sites| - 1], domain);
      var last := sites[|sites| - 1];
      assert forall v :: v in sites[..|sites| - 1] ==> v in sites;
      if Kept(last, domain) then prefix + [last] else prefix
  }

  /** After a delete no entry has the domain: finding it gives nothing. */
  lemma DeletedAbsent(sites: seq<Value>, domain: string)
    ensures forall i :: 0 <= i < |WithoutDomain(sites, domain)| ==> !HasDomain(WithoutDomain(sites, domain)[i], domain)
    ensures Find(WithoutDomain(sites, domain), domain) == Ok(None)
  {
  }

  /** Deleting a domain no entry has, from entries that all carry a domain, changes nothing. */
  lemma {:induction false} DeleteAbsentUnchanged(sites: seq<Value>, domain: string)
    requires forall i :: 0 <= i < |sites| ==> Kept(sites[i], domain)
    ensures WithoutDomain(sites, domain) == sites
    decreases |sites|
  {
    if |sites| > 0 {
      DeleteAbsentUnchanged(sites[..|sites| - 1], domain);
      assert sites[..|sites| - 1] + [sites[|sites| - 1]] == sites;
    }
  }

  /** Deleting keeps the domains unique. */
  lemma {:induction false} DeleteKeepsUnique(sites: seq<Value>, domain: string)
    requires DomainsUnique(sites)
    ensures DomainsUnique(WithoutDomain(sites, domain))
    decreases |sites|
  {
    if |sites| > 0 {
      var init := sites[..|sites| - 1];
      assert DomainsUnique(init) by {
        forall i, j | 0 <= i < j < |init| && DomainOf(init[i]).Some? ensures DomainOf(init[i]) != DomainOf(init[j]) {
          assert init[i] == sites[i] && init[j] == sites[j];
        }
      }
      DeleteKeepsUnique(init, domain);
      var last := sites[|sites| - 1];
      var prefix := WithoutDomain(init, domain);
      if Kept(last, domain) {
        var r := prefix + [last];
        forall i, j | 0 <= i < j < |r| && DomainOf(r[i]).Some? ensures DomainOf(r[i]) != DomainOf(r[j]) {
          if j == |r| - 1 {
            assert r[i] in init;
            var k :| 0 <= k < |init| && init[k] == r[i];
            assert sites[k] == r[i];
          } else {
            assert r[i] == prefix[i] && r[j] == prefix[j];
          }
        }
      }
    }
  }

  //
  // Nested lists
  // ----

  /** Some cron job of the list runs the script. */
  predicate RunsScript(crons: seq<CronDto>, script: string) {
    exists k :: 0 <= k < |crons| && crons[k].script == script
  }

  /** Some supervisor program of the list has the name. */
  predicate HasProgram(supervisors: seq<SupervisorDto>, program: string) {
    exists k :: 0 <= k < |supervisors| && supervisors[k].program == program
  }

  /** The scan of addCron for a job that already runs the script. */
  method ScanScripts(crons: seq<CronDto>, script: string) returns (taken: bool)
    ensures taken <==> RunsScript(crons, script)
  {
    var k := 0;
    while k < |crons|
      invariant k <= |crons|
      invariant forall j :: 0 <= j < k ==> crons[j].script != script
    {
      if crons[k].script == script {
        return true;
      }
      k := k + 1;
    }
    return false;
  }

  /** The scan of addSupervisor for a program that already has the name. */
  method ScanPrograms(supervisors: seq<SupervisorDto>, program: string) returns (taken: bool)
    ensures taken <==> HasProgram(supervisors, program)
  {
    var k := 0;
    while k < |supervisors|
      invariant k <= |supervisors|
      invariant forall j :: 0 <= j < k ==> supervisors[j].program != program
    {
      if supervisors[k].program == program {
        return true;
      }
      k := k + 1;
    }
    return false;
  }

  /** A list without the cron jobs running a script, in order. */
  function WithoutScript(crons: seq<CronDto>, script: string): (r: seq<CronDto>)
    ensures forall i :: 0 <= i < |r| ==> r[i].script != script && r[i] in crons
    ensures forall i :: 0 <= i < |crons| && crons[i].script != script ==> crons[i] in r
    decreases |crons|
  {
    if |crons| == 0 then []
    else
      var prefix := WithoutScript(crons[..|crons| - 1], script);
      var last := crons[|crons| - 1];
      assert forall i :: 0 <= i < |crons| - 1 ==> crons[i] == crons[..|crons| - 1][i];
      if last.script != script then prefix + [last] else prefix
  }

  /** A list without the supervisor programs of a name, in order. */
  function WithoutProgram(supervisors: seq<SupervisorDto>, program: string): (r: seq<SupervisorDto>)
    ensures forall i :: 0 <= i < |r| ==> r[i].program != program && r[i] in supervisors
    ensures forall i :: 0 <= i < |supervisors| && supervisors[i].program != program ==> supervisors[i] in r
    decreases |supervisors|
  {
    if |supervisors| == 0 then []
    else
      var prefix := WithoutProgram(supervisors[..|supervisors| - 1], program);
      var last := supervisors[|supervisors| - 1];
      assert forall i :: 0 <= i < |supervisors| - 1 ==> supervisors[i] == supervisors[..|supervisors| - 1][i];
      if last.program != program then prefix + [last] else prefix
  }

  //
  // The new state of each change
  // ----

  /** create: a domain already stored is refused; a new one is appended at the end. */
  function CreateSpec(sites: seq<Value>, site: SiteDto): Result<seq<Value>, RepoError> {
    match Find(sites, site.domain)
    case Err(e) => Err(e)
    case Ok(None) => Ok(sites + [Arr(DehydrateSite(site))])
    case Ok(Some(_)) => Err(SiteExists(site.domain))
  }

  /** update: the first entry with the site's domain is rewritten; no such entry is an error. */
  function UpdateSpec(sites: seq<Value>, site: SiteDto): Result<seq<Value>, RepoError> {
    match FirstWithDomain(sites, site.domain)
    case None => Err(SiteNotFound(site.domain))
    case Some(i) => Ok(sites[i := Arr(DehydrateSite(site))])
  }

  /** addCron: the site must exist and must not run the script yet; the job is appended. */
  function AddCronSpec(sites: seq<Value>, domain: string, cron: CronDto): Result<seq<Value>, RepoError> {
    match Find(sites, domain)
    case Err(e) => Err(e)
    case Ok(None) => Err(SiteNotFound(domain))
    case Ok(Some(site)) =>
      if RunsScript(site.crons, cron.script) then Err(CronExists(cron.script, domain))
      else UpdateSpec(sites, site.(crons := site.crons + [cron]))
  }

  /** deleteCron: the site must exist; its jobs running the script are dropped. */
  function DeleteCronSpec(sites: seq<Value>, domain: string, script: string): Result<seq<Value>, RepoError> {
    match Find(sites, domain)
    case Err(e) => Err(e)
    case Ok(None) => Err(SiteNotFound(domain))
    case Ok(Some(site)) => UpdateSpec(sites, site.(crons := WithoutScript(site.crons, script)))
  }

  /** addSupervisor: the site must exist and must not have the program yet; it is appended. */
  function AddSupervisorSpec(sites: seq<Value>, domain: string, supervisor: SupervisorDto): Result<seq<Value>, RepoError> {
    match Find(sites, domain)
    case Err(e) => Err(e)
    case Ok(None) => Err(SiteNotFound(domain))
    case Ok(Some(site)) =>
      if HasProgram(site.supervisors, supervisor.program) then Err(SupervisorExists(supervisor.program, domain))
      else UpdateSpec(sites, site.(supervisors := site.supervisors + [supervisor]))
  }

  /** deleteSupervisor: the site must exist; its programs of the name are dropped. */
  function DeleteSupervisorSpec(sites: seq<Value>, domain: string, program: string): Result<seq<Value>, RepoError> {
    match Find(sites, domain)
    case Err(e) => Err(e)
    case Ok(None) => Err(SiteNotFound(domain))
    case Ok(Some(site)) => UpdateSpec(sites, site.(supervisors := WithoutProgram(site.supervisors, program)))
  }

  /** What a change reports and the entries it leaves: a failed change leaves them as they were. */
  function Outcome(change: Result<seq<Value>, RepoError>, before: seq<Value>): (Result<(), RepoError>, seq<Value>) {
    match change
    case Ok(after) => (Ok(()), after)
    case Err(e) => (Err(e), before)
  }

  //
  // Properties of the changes
  // ----

  /** A created site is found again under its domain, as it was given. */
  lemma CreateThenFind(sites: seq<Value>, site: SiteDto)
    requires ValidSite(site) && CreateSpec(sites, site).Ok?
    ensures Find(CreateSpec(sites, site).value, site.domain) == Ok(Some(site))
  {
    var after := CreateSpec(sites, site).value;
    DehydratedRequired(site);
    FirstWithDomainIs(after, site.domain, |sites|);
    SiteRoundTrip(site);
  }

  /** Creating keeps the stored domains unique. */
  lemma CreateKeepsUnique(sites: seq<Value>, site: SiteDto)
    requires DomainsUnique(sites) && CreateSpec(sites, site).Ok?
    ensures DomainsUnique(CreateSpec(sites, site).value)
  {
    DehydratedRequired(site);
    var r := CreateSpec(sites, site).value;
    assert DomainOf(r[|sites|]) == Some(site.domain);
    forall i, j | 0 <= i < j < |r| && DomainOf(r[i]).Some? ensures DomainOf(r[i]) != DomainOf(r[j]) {
      if j == |sites| {
        assert !HasDomain(sites[i], site.domain);
      } else {
        assert r[i] == sites[i] && r[j] == sites[j];
      }
    }
  }

  /** An updated site is found again under its domain, as it was given; no other entry changes. */
  lemma UpdateThenFind(sites: seq<Value>, site: SiteDto)
    requires ValidSite(site) && UpdateSpec(sites, site).Ok?
    ensures Find(UpdateSpec(sites, site).value, site.domain) == Ok(Some(site))
    ensures |UpdateSpec(sites, site).value| == |sites|
    ensures forall j :: 0 <= j < |sites| && j != FirstWithDomain(sites, site.domain).value ==>
      UpdateSpec(sites, site).value[j] == sites[j]
  {
    var i := FirstWithDomain(sites, site.domain).value;
    var after := UpdateSpec(sites, site).value;
    DehydratedRequired(site);
    FirstWithDomainIs(after, site.domain, i);
    SiteRoundTrip(site);
  }

  /** Updating keeps the stored domains unique. */
  lemma UpdateKeepsUnique(sites: seq<Value>, site: SiteDto)
    requires DomainsUnique(sites) && UpdateSpec(sites, site).Ok?
    ensures DomainsUnique(UpdateSpec(sites, site).value)
  {
    var i := FirstWithDomain(sites, site.domain).value;
    DehydratedRequired(site);
    var r := UpdateSpec(sites, site).value;
    assert DomainOf(r[i]) == DomainOf(sites[i]);
    assert forall k :: 0 <= k < |r| ==> DomainOf(r[k]) == DomainOf(sites[k]);
  }

  /** After addCron the site is found with the new job at the end of its list. */
  lemma AddCronThenFind(sites: seq<Value>, domain: string, cron: CronDto)
    requires ValidCron(cron) && AddCronSpec(sites, domain, cron).Ok?
    ensures var site := Find(sites, domain).value.value;
      Find(AddCronSpec(sites, domain, cron).value, domain) == Ok(Some(site.(crons := site.crons + [cron])))
  {
    var site := Find(sites, domain).value.value;
    FoundHasDomain(sites, domain);
    FoundValid(sites, domain);
    UpdateThenFind(sites, site.(crons := site.crons + [cron]));
  }

  /** After deleteCron the site is found with no job running the script and the others kept. */
  lemma DeleteCronThenFind(sites: seq<Value>, domain: string, script: string)
    requires DeleteCronSpec(sites, domain, script).Ok?
    ensures var site := Find(sites, domain).value.value;
      Find(DeleteCronSpec(sites, domain, script).value, domain) == Ok(Some(site.(crons := WithoutScript(site.crons, script))))
    ensures !RunsScript(Find(DeleteCronSpec(sites, domain, script).value, domain).value.value.crons, script)
  {
    var site := Find(sites, domain).value.value;
    FoundHasDomain(sites, domain);
    FoundValid(sites, domain);
    var crons := WithoutScript(site.crons, script);
    forall i | 0 <= i < |crons| ensures ValidCron(crons[i]) {
      var k :| 0 <= k < |site.crons| && site.crons[k] == crons[i];
    }
    UpdateThenFind(sites, site.(crons := crons));
  }

  /** After addSupervisor the site is found with the new program at the end of its list. */
  lemma AddSupervisorThenFind(sites: seq<Value>, domain: string, supervisor: SupervisorDto)
    requires ValidSupervisor(supervisor) && AddSupervisorSpec(sites, domain, supervisor).Ok?
    ensures var site := Find(sites, domain).value.value;
      Find(AddSupervisorSpec(sites, domain, supervisor).value, domain) ==
        Ok(Some(site.(supervisors := site.supervisors + [supervisor])))
  {
    var site := Find(sites, domain).value.value;
    FoundHasDomain(sites, domain);
    FoundValid(sites, domain);
    UpdateThenFind(sites, site.(supervisors := site.supervisors + [supervisor]));
  }

  /** After deleteSupervisor the site is found without programs of the name and the others kept. */
  lemma DeleteSupervisorThenFind(sites: seq<Value>, domain: string, program: string)
    requires DeleteSupervisorSpec(sites, domain, program).Ok?
    ensures var site := Find(sites, domain).value.value;
      Find(DeleteSupervisorSpec(sites, domain, program).value, domain) ==
        Ok(Some(site.(supervisors := WithoutProgram(site.supervisors, program))))
    ensures !HasProgram(Find(DeleteSupervisorSpec(sites, domain, program).value, domain).value.value.supervisors, program)
  {
    var site := Find(sites, domain).value.value;
    FoundHasDomain(sites, domain);
    FoundValid(sites, domain);
    var supervisors := WithoutProgram(site.supervisors, program);
    forall i | 0 <= i < |supervisors| ensures ValidSupervisor(supervisors[i]) {
      var k :| 0 <= k < |site.supervisors| && site.supervisors[k] == supervisors[i];
    }
    UpdateThenFind(sites, site.(supervisors := supervisors));
  }

  /** The cron changes rewrite one entry under its own domain, so domains stay unique. */
  lemma CronChangesKeepUnique(sites: seq<Value>, domain: string, cron: CronDto, script: string)
    requires DomainsUnique(sites)
    ensures AddCronSpec(sites, domain, cron).Ok? ==> DomainsUnique(AddCronSpec(sites, domain, cron).value)
    ensures DeleteCronSpec(sites, domain, script).Ok? ==> DomainsUnique(DeleteCronSpec(sites, domain, script).value)
  {
    if Find(sites, domain).Ok? && Find(sites, domain).value.Some? {
      var site := Find(sites, domain).value.value;
      UpdateKeepsUnique(sites, site.(crons := site.crons + [cron]));
      UpdateKeepsUnique(sites, site.(crons := WithoutScript(site.crons, script)));
    }
  }

  /** The supervisor changes rewrite one entry under its own domain, so domains stay unique. */
  lemma SupervisorChangesKeepUnique(sites: seq<Value>, domain: string, supervisor: SupervisorDto, program: string)
    requires DomainsUnique(sites)
    ensures AddSupervisorSpec(sites, domain, supervisor).Ok? ==>
      DomainsUnique(AddSupervisorSpec(sites, domain, supervisor).value)
    ensures DeleteSupervisorSpec(sites, domain, program).Ok? ==>
      DomainsUnique(DeleteSupervisorSpec(sites, domain, program).value)
  {
    if Find(sites, domain).Ok? && Find(sites, domain).value.Some? {
      var site := Find(sites, domain).value.value;
      UpdateKeepsUnique(sites, site.(supervisors := site.supervisors + [supervisor]));
      UpdateKeepsUnique(sites, site.(supervisors := WithoutProgram(site.supervisors, program)));
    }
  }

  /** The values of a stored array, in order. */
  function Values(entries: seq<(Key, Value)>): (vs: seq<Value>)
    ensures |vs| == |entries| && forall i :: 0 <= i < |vs| ==> vs[i] == entries[i].1
  {
    seq(|entries|, i requires 0 <= i < |entries| => entries[i].1)
  }

  //
  // The repository
  // ----

  class SiteRepo {
    /** Whether loadInventory has been called. */
    var loaded: bool
    /** The stored site entries, in order. */
    var sites: seq<Value>
    /** What the inventory holds under "sites". */
    var saved: Value

    /** Once loaded, the entries in memory are the ones in the inventory. */
    predicate Valid()
      reads this
    {
      loaded ==> saved.Arr? && Values(saved.entries) == sites
    }

    constructor ()
      ensures !loaded && Valid()
    {
      loaded := false;
      sites := [];
      saved := Null;
    }

    /** loadInventory: a stored value that is not an array is replaced by an empty list. */
    method LoadInventory(stored: Value)
      modifies this
      ensures Valid() && loaded
      ensures stored.Arr? ==> sites == Values(stored.entries) && saved == stored
      ensures !stored.Arr? ==> sites == [] && saved == Arr([])
    {
      loaded := true;
      if stored.Arr? {
        sites := Values(stored.entries);
        saved := stored;
      } else {
        sites := [];
        saved := Arr([]);
      }
    }

    /** `inventory->set('sites', $this->sites)`. */
    method Persist()
      modifies this
      ensures saved.Arr? && Values(saved.entries) == sites
      ensures sites == old(sites) && loaded == old(loaded)
    {
      var current := sites;
      saved := Arr(seq(|current|, i requires 0 <= i < |current| => (KeyInt(i), current[i])));
    }

    /** findByDomain. */
    method FindByDomain(domain: string) returns (r: Result<Option<SiteDto>, RepoError>)
      requires Valid()
      ensures !loaded ==> r == Err(NotLoaded)
      ensures loaded ==> r == Find(sites, domain)
    {
      if !loaded {
        return Err(NotLoaded);
      }
      var i := 0;
      while i < |sites|
        invariant i <= |sites|
        invariant forall j :: 0 <= j < i ==> !HasDomain(sites[j], domain)
      {
        var v := sites[i];
        if v.Arr? && Lookup(v.entries, KeyStr("domain")) == Some(Str(domain)) {
          FirstWithDomainIs(sites, domain, i);
          var h := HydrateSite(v);
          if h.Err? {
            return Err(h.error);
          }
          return Ok(Some(h.value));
        }
        i := i + 1;
      }
      return Ok(None);
    }

    /** all: every stored entry hydrated, in order. */
    method All() returns (r: Result<seq<SiteDto>, RepoError>)
      requires Valid()
      ensures !loaded ==> r == Err(NotLoaded)
      ensures loaded ==> r == HydrateAll(sites)
    {
      if !loaded {
        return Err(NotLoaded);
      }
      r := CollectHydrated(sites, HydrateSite);
    }

    /** findByServer: every entry is hydrated, and the sites on the server are kept in order. */
    method FindByServer(server: string) returns (r: Result<seq<SiteDto>, RepoError>)
      requires Valid()
      ensures !loaded ==> r == Err(NotLoaded)
      ensures loaded && HydrateAll(sites).Err? ==> r == Err(HydrateAll(sites).error)
      ensures loaded && HydrateAll(sites).Ok? ==> r == Ok(OnServer(HydrateAll(sites).value, server))
    {
      if !loaded {
        return Err(NotLoaded);
      }
      r := SitesOnServer(sites, HydrateSite, server);
    }

    /** create. */
    method Create(site: SiteDto) returns (r: Result<(), RepoError>)
      requires Valid()
      modifies this
      ensures Valid() && loaded == old(loaded)
      ensures !loaded ==> r == Err(NotLoaded) && sites == old(sites)
      ensures loaded ==> (r, sites) == Outcome(CreateSpec(old(sites), site), old(sites))
    {
      if !loaded {
        return Err(NotLoaded);
      }
      var existing := FindByDomain(site.domain);
      if existing.Err? {
        return Err(existing.error);
      }
      if existing.value.Some? {
        return Err(SiteExists(site.domain));
      }
      sites := sites + [Arr(DehydrateSite(site))];
      Persist();
      return Ok(());
    }

    /** update. */
    method Update(site: SiteDto) returns (r: Result<(), RepoError>)
      requires Valid()
      modifies this
      ensures Valid() && loaded == old(loaded)
      ensures !loaded ==> r == Err(NotLoaded) && sites == old(sites)
      ensures loaded ==> (r, sites) == Outcome(UpdateSpec(old(sites), site), old(sites))
    {
      if !loaded {
        return Err(NotLoaded);
      }
      var i := 0;
      while i < |sites|
        invariant i <= |sites|
        invariant forall j :: 0 <= j < i ==> !HasDomain(sites[j], site.domain)
      {
        var v := sites[i];
        if v.Arr? && Lookup(v.entries, KeyStr("domain")) == Some(Str(site.domain)) {
          FirstWithDomainIs(sites, site.domain, i);
          sites := sites[i := Arr(DehydrateSite(site))];
          Persist();
          return Ok(());
        }
        i := i + 1;
      }
      return Err(SiteNotFound(site.domain));
    }

    /** delete: entries with the domain, and entries without a domain, are dropped; the rest keep their order. */
    method Delete(domain: string) returns (r: Result<(), RepoError>)
      requires Valid()
      modifies this
      ensures Valid() && loaded == old(loaded)
      ensures !loaded ==> r == Err(NotLoaded) && sites == old(sites)
      ensures loaded ==> r == Ok(()) && sites == WithoutDomain(old(sites), domain)
    {
      if !loaded {
        return Err(NotLoaded);
      }
      sites := KeepOtherDomains(sites, domain);
      Persist();
      return Ok(());
    }

    /** addCron. */
    method AddCron(domain: string, cron: CronDto) returns (r: Result<(), RepoError>)
      requires Valid()
      modifies this
      ensures Valid() && loaded == old(loaded)
      ensures !loaded ==> r == Err(NotLoaded) && sites == old(sites)
      ensures loaded ==> (r, sites) == Outcome(AddCronSpec(old(sites), domain, cron), old(sites))
    {
      if !loaded {
        return Err(NotLoaded);
      }
      var found := FindByDomain(domain);
      if found.Err? {
        return Err(found.error);
      }
      if found.value.None? {
        return Err(SiteNotFound(domain));
      }
      var site := found.value.value;
      FoundHasDomain(sites, domain);
      var taken := ScanScripts(site.crons, cron.script);
      if taken {
        return Err(CronExists(cron.script, domain));
      }
      var b := new SiteBuilder.From(site);
      b.AddCron(cron);
      var updated := b.Build();
      r := Update(updated.value);
    }

    /** deleteCron. */
    method DeleteCron(domain: string, script: string) returns (r: Result<(), RepoError>)
      requires Valid()
      modifies this
      ensures Valid() && loaded == old(loaded)
      ensures !loaded ==> r == Err(NotLoaded) && sites == old(sites)
      ensures loaded ==> (r, sites) == Outcome(DeleteCronSpec(old(sites), domain, script), old(sites))
    {
      if !loaded {
        return Err(NotLoaded);
      }
      var found := FindByDomain(domain);
      if found.Err? {
        return Err(found.error);
      }
      if found.value.None? {
        return Err(SiteNotFound(domain));
      }
      var site := found.value.value;
      FoundHasDomain(sites, domain);
      var crons: seq<CronDto> := [];
      var k := 0;
      while k < |site.crons|
        invariant k <= |site.crons|
        invariant crons == WithoutScript(site.crons[..k], script)
      {
        assert site.crons[..k + 1][..k] == site.crons[..k];
        if site.crons[k].script != script {
          crons := crons + [site.crons[k]];
        }
        k := k + 1;
      }
      assert site.crons[..k] == site.crons;
      var b := new SiteBuilder.From(site);
      b.SetCrons(crons);
      var updated := b.Build();
      r := Update(updated.value);
    }

    /** addSupervisor. */
    method AddSupervisor(domain: string, supervisor: SupervisorDto) returns (r: Result<(), RepoError>)
      requires Valid()
      modifies this
      ensures Valid() && loaded == old(loaded)
      ensures !loaded ==> r == Err(NotLoaded) && sites == old(sites)
      ensures loaded ==> (r, sites) == Outcome(AddSupervisorSpec(old(sites), domain, supervisor), old(sites))
    {
      if !loaded {
        return Err(NotLoaded);
      }
      var found := FindByDomain(domain);
      if found.Err? {
        return Err(found.error);
      }
      if found.value.None? {
        return Err(SiteNotFound(domain));
      }
      var site := found.value.value;
      FoundHasDomain(sites, domain);
      var taken := ScanPrograms(site.supervisors, supervisor.program);
      if taken {
        return Err(SupervisorExists(supervisor.program, domain));
      }
      var b := new SiteBuilder.From(site);
      b.AddSupervisor(supervisor);
      var updated := b.Build();
      r := Update(updated.value);
    }

    /** deleteSupervisor. */
    method DeleteSupervisor(domain: string, program: string) returns (r: Result<(), RepoError>)
      requires Valid()
      modifies this
      ensures Valid() && loaded == old(loaded)
      ensures !loaded ==> r == Err(NotLoaded) && sites == old(sites)
      ensures loaded ==> (r, sites) == Outcome(DeleteSupervisorSpec(old(sites), domain, program), old(sites))
    {
      if !loaded {
        return Err(NotLoaded);
      }
      var found := FindByDomain(domain);
      if found.Err? {
        return Err(found.error);
      }
      if found.value.None? {
        return Err(SiteNotFound(domain));
      }
      var site := found.value.value;
      FoundHasDomain(sites, domain);
      var supervisors: seq<SupervisorDto> := [];
      var k := 0;
      while k < |site.supervisors|
        invariant k <= |site.supervisors|
        invariant supervisors == WithoutProgram(site.supervisors[..k], program)
      {
        assert site.supervisors[..k + 1][..k] == site.supervisors[..k];
        if site.supervisors[k].program != program {
          supervisors := supervisors + [site.supervisors[k]];
        }
        k := k + 1;
      }
      assert site.supervisors[..k] == site.supervisors;
      var b := new SiteBuilder.From(site);
      b.SetSupervisors(supervisors);
      var updated := b.Build();
      r := Update(updated.value);
    }
  }
}
