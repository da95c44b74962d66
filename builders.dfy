/**
 * The fluent builders of the inventory's value objects.  Each builder holds the fields of
 * the object it builds, starts from typed defaults, can be filled from an object (`from`)
 * or from a stored array (`fromStorage`, which type-checks every field and falls back to
 * the default), and checks its required fields in `build`.
 *
 * The builder's state is described by the unchecked value object `State()`; `CheckX` is
 * what `build` does to it and `StoredX` is the state `fromStorage` produces.
 */
module Builders {
  import opened Wrappers
  import opened PhpValues
  import opened Dtos

  datatype BuildError =
    | CronWithoutScript
    | CronWithoutSchedule
    | SupervisorWithoutProgram
    | SupervisorWithoutScript
    | SiteWithoutDomain
    | SiteWithoutServer
    | SiteWithoutPhpVersion
    /** "Site '<d>' is missing required 'php_version' in inventory". */
    | PhpVersionNotStored(domain: string)
    | ServerWithoutName
    | ServerWithoutHost
    | NoSiteSet
    | NoServerSet

  //
  // Reading stored fields
  // ----

  /** `is_string($v = $data[key] ?? default) ? $v : default`. */
  function StringField(data: seq<(Key, Value)>, key: string, default: string): (r: string)
    ensures (Lookup(data, KeyStr(key)).Some? && Lookup(data, KeyStr(key)).value.Str?) ==>
      r == Lookup(data, KeyStr(key)).value.s
    ensures !(Lookup(data, KeyStr(key)).Some? && Lookup(data, KeyStr(key)).value.Str?) ==> r == default
  {
    var v := Coalesce(data, KeyStr(key), Str(default));
    if v.Str? then v.s else default
  }

  /** `is_string($v = $data[key] ?? null) ? $v : null`. */
  function OptStringField(data: seq<(Key, Value)>, key: string): (r: Option<string>)
    ensures r.Some? <==> Lookup(data, KeyStr(key)).Some? && Lookup(data, KeyStr(key)).value.Str?
    ensures r.Some? ==> r.value == Lookup(data, KeyStr(key)).value.s
  {
    var v := Coalesce(data, KeyStr(key), Null);
    if v.Str? then Some(v.s) else None
  }

  /** `is_bool($v = $data[key] ?? default) ? $v : default`. */
  function BoolField(data: seq<(Key, Value)>, key: string, default: bool): (r: bool)
    ensures (Lookup(data, KeyStr(key)).Some? && Lookup(data, KeyStr(key)).value.Bool?) ==>
      r == Lookup(data, KeyStr(key)).value.b
    ensures !(Lookup(data, KeyStr(key)).Some? && Lookup(data, KeyStr(key)).value.Bool?) ==> r == default
  {
    var v := Coalesce(data, KeyStr(key), Bool(default));
    if v.Bool? then v.b else default
  }

  /** `is_int($v = $data[key] ?? default) ? $v : default`. */
  function IntField(data: seq<(Key, Value)>, key: string, default: int): (r: int)
    ensures (Lookup(data, KeyStr(key)).Some? && Lookup(data, KeyStr(key)).value.Int?) ==>
      r == Lookup(data, KeyStr(key)).value.i
    ensures !(Lookup(data, KeyStr(key)).Some? && Lookup(data, KeyStr(key)).value.Int?) ==> r == default
  {
    var v := Coalesce(data, KeyStr(key), Int(default));
    if v.Int? then v.i else default
  }

  /** `is_int($v = $data[key] ?? null) ? $v : null`. */
  function OptIntField(data: seq<(Key, Value)>, key: string): (r: Option<int>)
    ensures r.Some? <==> Lookup(data, KeyStr(key)).Some? && Lookup(data, KeyStr(key)).value.Int?
    ensures r.Some? ==> r.value == Lookup(data, KeyStr(key)).value.i
  {
    var v := Coalesce(data, KeyStr(key), Null);
    if v.Int? then Some(v.i) else None
  }

  //
  // Cron jobs
  // ----

  /** CronBuilder::build: a script is required, then a schedule. */
  function CheckCron(c: CronDto): (r: Result<CronDto, BuildError>)
    ensures r.Ok? <==> c.script != "" && c.schedule != ""
    ensures r.Ok? ==> r.value == c
    ensures r.Err? ==> r.error == if c.script == "" then CronWithoutScript else CronWithoutSchedule
  {
    if c.script == "" then Err(CronWithoutScript)
    else if c.schedule == "" then Err(CronWithoutSchedule)
    else Ok(c)
  }

  /** The state CronBuilder::fromStorage produces: a missing or non-string field is "". */
  function StoredCron(data: seq<(Key, Value)>): CronDto {
    CronDto(StringField(data, "script", ""), StringField(data, "schedule", ""))
  }

  /** `CronBuilder::fromStorage($data)->build()`. */
  function CronFromStorage(data: seq<(Key, Value)>): Result<CronDto, BuildError> {
    CheckCron(StoredCron(data))
  }

  class CronBuilder {
    var script: string
    var schedule: string

    function State(): CronDto
      reads this
    {
      CronDto(script, schedule)
    }

    /** CronBuilder::new: both fields empty. */
    constructor ()
      ensures State() == CronDto("", "")
    {
      script := "";
      schedule := "";
    }

    /** CronBuilder::from: the fields of an existing cron job. */
    constructor From(dto: CronDto)
      ensures State() == dto
    {
      script := dto.script;
      schedule := dto.schedule;
    }

    /** CronBuilder::fromStorage. */
    constructor FromStorage(data: seq<(Key, Value)>)
      ensures State() == StoredCron(data)
    {
      script := StringField(data, "script", "");
      schedule := StringField(data, "schedule", "");
    }

    method SetScript(s: string)
      modifies this
      ensures State() == old(State()).(script := s)
    {
      script := s;
    }

    method SetSchedule(s: string)
      modifies this
      ensures State() == old(State()).(schedule := s)
    {
      schedule := s;
    }

    method Build() returns (r: Result<CronDto, BuildError>)
      ensures r == CheckCron(State())
    {
      if script == "" {
        return Err(CronWithoutScript);
      }
      if schedule == "" {
        return Err(CronWithoutSchedule);
      }
      return Ok(CronDto(script, schedule));
    }
  }

  /** `CronBuilder::from($dto)->build()` gives back a cron job with both fields set. */
  method RebuildCron(dto: CronDto) returns (r: Result<CronDto, BuildError>)
    ensures r.Ok? <==> dto.script != "" && dto.schedule != ""
    ensures r.Ok? ==> r.value == dto
  {
    var b := new CronBuilder.From(dto);
    r := b.Build();
  }

  //
  // Supervisor programs
  // ----

  const DefaultAutostart: bool := true
  const DefaultAutorestart: bool := true
  const DefaultStopWaitSecs: int := 3600
  const DefaultNumProcs: int := 1

  /** SupervisorBuilder::build: a program name is required, then a script. */
  function CheckSupervisor(s: SupervisorDto): (r: Result<SupervisorDto, BuildError>)
    ensures r.Ok? <==> s.program != "" && s.script != ""
    ensures r.Ok? ==> r.value == s
    ensures r.Err? ==> r.error == if s.program == "" then SupervisorWithoutProgram else SupervisorWithoutScript
  {
    if s.program == "" then Err(SupervisorWithoutProgram)
    else if s.script == "" then Err(SupervisorWithoutScript)
    else Ok(s)
  }

  /** The state SupervisorBuilder::fromStorage produces: a wrongly typed field takes its default. */
  function StoredSupervisor(data: seq<(Key, Value)>): SupervisorDto {
    SupervisorDto(
      StringField(data, "program", ""),
      StringField(data, "script", ""),
      BoolField(data, "autostart", DefaultAutostart),
      BoolField(data, "autorestart", DefaultAutorestart),
      IntField(data, "stopwaitsecs", DefaultStopWaitSecs),
      IntField(data, "numprocs", DefaultNumProcs))
  }

  /** `SupervisorBuilder::fromStorage($data)->build()`. */
  function SupervisorFromStorage(data: seq<(Key, Value)>): Result<SupervisorDto, BuildError> {
    CheckSupervisor(StoredSupervisor(data))
  }

  /** An empty stored array gives the defaults, and no program to build. */
  lemma SupervisorDefaults()
    ensures StoredSupervisor([]) == SupervisorDto("", "", true, true, 3600, 1)
    ensures SupervisorFromStorage([]) == Err(SupervisorWithoutProgram)
  {
  }

  class SupervisorBuilder {
    var program: string
    var script: string
    var autostart: bool
    var autorestart: bool
    var stopwaitsecs: int
    var numprocs: int

    function State(): SupervisorDto
      reads this
    {
      SupervisorDto(program, script, autostart, autorestart, stopwaitsecs, numprocs)
    }

    /** SupervisorBuilder::new: no program or script; autostart, autorestart, 3600 s, one process. */
    constructor ()
      ensures State() == SupervisorDto("", "", DefaultAutostart, DefaultAutorestart, DefaultStopWaitSecs, DefaultNumProcs)
    {
      program := "";
      script := "";
      autostart := DefaultAutostart;
      autorestart := DefaultAutorestart;
      stopwaitsecs := DefaultStopWaitSecs;
      numprocs := DefaultNumProcs;
    }

    constructor From(dto: SupervisorDto)
      ensures State() == dto
    {
      program := dto.program;
      script := dto.script;
      autostart := dto.autostart;
      autorestart := dto.autorestart;
      stopwaitsecs := dto.stopwaitsecs;
      numprocs := dto.numprocs;
    }

    constructor FromStorage(data: seq<(Key, Value)>)
      ensures State() == StoredSupervisor(data)
    {
      program := StringField(data, "program", "");
      script := StringField(data, "script", "");
      autostart := BoolField(data, "autostart", DefaultAutostart);
      autorestart := BoolField(data, "autorestart", DefaultAutorestart);
      stopwaitsecs := IntField(data, "stopwaitsecs", DefaultStopWaitSecs);
      numprocs := IntField(data, "numprocs", DefaultNumProcs);
    }

    method SetProgram(p: string)
      modifies this
      ensures State() == old(State()).(program := p)
    {
      program := p;
    }

    method SetScript(s: string)
      modifies this
      ensures State() == old(State()).(script := s)
    {
      script := s;
    }

    method SetAutostart(b: bool)
      modifies this
      ensures State() == old(State()).(autostart := b)
    {
      autostart := b;
    }

    method SetAutorestart(b: bool)
      modifies this
      ensures State() == old(State()).(autorestart := b)
    {
      autorestart := b;
    }

    method SetStopWaitSecs(n: int)
      modifies this
      ensures State() == old(State()).(stopwaitsecs := n)
    {
      stopwaitsecs := n;
    }

    method SetNumProcs(n: int)
      modifies this
      ensures State() == old(State()).(numprocs := n)
    {
      numprocs := n;
    }

    method Build() returns (r: Result<SupervisorDto, BuildError>)
      ensures r == CheckSupervisor(State())
    {
      if program == "" {
        return Err(SupervisorWithoutProgram);
      }
      if script == "" {
        return Err(SupervisorWithoutScript);
      }
      return Ok(State());
    }
  }

  /** `SupervisorBuilder::from($dto)->build()` gives back a program with a name and a script. */
  method RebuildSupervisor(dto: SupervisorDto) returns (r: Result<SupervisorDto, BuildError>)
    ensures r.Ok? <==> dto.program != "" && dto.script != ""
    ensures r.Ok? ==> r.value == dto
  {
    var b := new SupervisorBuilder.From(dto);
    r := b.Build();
  }

  //
  // Servers
  // ----

  /** ServerBuilder::build: a name is required, then a host. */
  function CheckServer(s: ServerDto): (r: Result<ServerDto, BuildError>)
    ensures r.Ok? <==> s.name != "" && s.host != ""
    ensures r.Ok? ==> r.value == s
    ensures r.Err? ==> r.error == if s.name == "" then ServerWithoutName else ServerWithoutHost
  {
    if s.name == "" then Err(ServerWithoutName)
    else if s.host == "" then Err(ServerWithoutHost)
    else Ok(s)
  }

  /**
   * The state ServerBuilder::fromStorage produces: each field type-checked, falling back to
   * its default; `info` is never read from storage.
   */
  function StoredServer(data: seq<(Key, Value)>): (s: ServerDto)
    ensures s.info.None?
    ensures Lookup(data, KeyStr("port")).None? ==> s.port == DefaultPort
    ensures Lookup(data, KeyStr("username")).None? ==> s.username == DefaultUsername
  {
    ServerDto(
      StringField(data, "name", ""),
      StringField(data, "host", ""),
      IntField(data, "port", DefaultPort),
      StringField(data, "username", DefaultUsername),
      OptStringField(data, "privateKeyPath"),
      OptStringField(data, "provider"),
      OptIntField(data, "dropletId"),
      OptStringField(data, "instanceId"),
      None)
  }

  class ServerBuilder {
    var name: string
    var host: string
    var port: int
    var username: string
    var privateKeyPath: Option<string>
    var provider: Option<string>
    var dropletId: Option<int>
    var instanceId: Option<string>
    var info: Option<seq<(Key, Value)>>

    function State(): ServerDto
      reads this
    {
      ServerDto(name, host, port, username, privateKeyPath, provider, dropletId, instanceId, info)
    }

    /** ServerBuilder::new: the defaults of a server without name or host. */
    constructor ()
      ensures State() == NewServer("", "")
    {
      name := "";
      host := "";
      port := DefaultPort;
      username := DefaultUsername;
      privateKeyPath := None;
      provider := None;
      dropletId := None;
      instanceId := None;
      info := None;
    }

    constructor From(dto: ServerDto)
      ensures State() == dto
    {
      name := dto.name;
      host := dto.host;
      port := dto.port;
      username := dto.username;
      privateKeyPath := dto.privateKeyPath;
      provider := dto.provider;
      dropletId := dto.dropletId;
      instanceId := dto.instanceId;
      info := dto.info;
    }

    constructor FromStorage(data: seq<(Key, Value)>)
      ensures State() == StoredServer(data)
    {
      name := StringField(data, "name", "");
      host := StringField(data, "host", "");
      port := IntField(data, "port", DefaultPort);
      username := StringField(data, "username", DefaultUsername);
      privateKeyPath := OptStringField(data, "privateKeyPath");
      provider := OptStringField(data, "provider");
      dropletId := OptIntField(data, "dropletId");
      instanceId := OptStringField(data, "instanceId");
      info := None;
    }

    method SetName(n: string)
      modifies this
      ensures State() == old(State()).(name := n)
    {
      name := n;
    }

    method SetHost(h: string)
      modifies this
      ensures State() == old(State()).(host := h)
    {
      host := h;
    }

    method SetPort(p: int)
      modifies this
      ensures State() == old(State()).(port := p)
    {
      port := p;
    }

    method SetUsername(u: string)
      modifies this
      ensures State() == old(State()).(username := u)
    {
      username := u;
    }

    method SetPrivateKeyPath(p: Option<string>)
      modifies this
      ensures State() == old(State()).(privateKeyPath := p)
    {
      privateKeyPath := p;
    }

    method SetProvider(p: Option<string>)
      modifies this
      ensures State() == old(State()).(provider := p)
    {
      provider := p;
    }

    method SetDropletId(id: Option<int>)
      modifies this
      ensures State() == old(State()).(dropletId := id)
    {
      dropletId := id;
    }

    method SetInstanceId(id: Option<string>)
      modifies this
      ensures State() == old(State()).(instanceId := id)
    {
      instanceId := id;
    }

    method SetInfo(i: Option<seq<(Key, Value)>>)
      modifies this
      ensures State() == old(State()).(info := i)
    {
      info := i;
    }

    method Build() returns (r: Result<ServerDto, BuildError>)
      ensures r == CheckServer(State())
    {
      if name == "" {
        return Err(ServerWithoutName);
      }
      if host == "" {
        return Err(ServerWithoutHost);
      }
      return Ok(State());
    }
  }

  /** `ServerBuilder::from($dto)->build()` keeps every field, `info` included. */
  method RebuildServer(dto: ServerDto) returns (r: Result<ServerDto, BuildError>)
    ensures r.Ok? <==> dto.name != "" && dto.host != ""
    ensures r.Ok? ==> r.value == dto
  {
    var b := new ServerBuilder.From(dto);
    r := b.Build();
  }

  /** A server read back from storage has no `info`, even when one was stored. */
  method ServerFromStorageDropsInfo(data: seq<(Key, Value)>) returns (r: Result<ServerDto, BuildError>)
    ensures r.Ok? ==> r.value.info.None?
    ensures r.Ok? <==> StringField(data, "name", "") != "" && StringField(data, "host", "") != ""
  {
    var b := new ServerBuilder.FromStorage(data);
    r := b.Build();
  }

  //
  // Sites
  // ----

  const DefaultWebRoot: string := "public"

  /** SiteBuilder::build: a domain is required, then a server, then a PHP version. */
  function CheckSite(s: SiteDto): (r: Result<SiteDto, BuildError>)
    ensures r.Ok? <==> s.domain != "" && s.server != "" && s.phpVersion != ""
    ensures r.Ok? ==> r.value == s
    ensures r.Err? ==> r.error == if s.domain == "" then SiteWithoutDomain
                                  else if s.server == "" then SiteWithoutServer
                                  else SiteWithoutPhpVersion
  {
    if s.domain == "" then Err(SiteWithoutDomain)
    else if s.server == "" then Err(SiteWithoutServer)
    else if s.phpVersion == "" then Err(SiteWithoutPhpVersion)
    else Ok(s)
  }

  /** The entries of a stored list: `is_array($v) ? $v : []`. */
  function Items(v: Value): seq<(Key, Value)> {
    if v.Arr? then v.entries else []
  }

  /**
   * The nested objects hydrated from a stored list, in order: entries that are not arrays
   * are skipped, and the first entry that does not build stops the hydration.
   */
  function HydrateEach<T>(items: seq<(Key, Value)>, hydrate: seq<(Key, Value)> -> Result<T, BuildError>): (r: Result<seq<T>, BuildError>)
    ensures r.Ok? ==> |r.value| <= |items|
    decreases |items|
  {
    if |items| == 0 then Ok([])
    else
      match HydrateEach(items[..|items| - 1], hydrate)
      case Err(e) => Err(e)
      case Ok(prefix) =>
        var v := items[|items| - 1].1;
        if !v.Arr? then Ok(prefix)
        else
          match hydrate(v.entries)
          case Err(e) => Err(e)
          case Ok(x) => Ok(prefix + [x])
  }

  /** The loop of SiteBuilder::fromStorage over one nested list. */
  method CollectEach<T>(items: seq<(Key, Value)>, hydrate: seq<(Key, Value)> -> Result<T, BuildError>) returns (r: Result<seq<T>, BuildError>)
    ensures r == HydrateEach(items, hydrate)
  {
    var acc: seq<T> := [];
    var i := 0;
    while i < |items|
      invariant i <= |items|
      invariant HydrateEach(items[..i], hydrate) == Ok(acc)
    {
      assert items[..i + 1][..i] == items[..i];
      var v := items[i].1;
      if v.Arr? {
        var x := hydrate(v.entries);
        if x.Err? {
          HydrateEachStopsAtError(items, i + 1, hydrate);
          return Err(x.error);
        }
        acc := acc + [x.value];
      }
      i := i + 1;
    }
    assert items[..i] == items;
    return Ok(acc);
  }

  /** Once a prefix fails, the whole list fails with the same error. */
  lemma {:induction false} HydrateEachStopsAtError<T>(items: seq<(Key, Value)>, n: nat, hydrate: seq<(Key, Value)> -> Result<T, BuildError>)
    requires n <= |items| && HydrateEach(items[..n], hydrate).Err?
    ensures HydrateEach(items, hydrate) == HydrateEach(items[..n], hydrate)
    decreases |items| - n
  {
    if n < |items| {
      assert items[..n + 1][..n] == items[..n];
      HydrateEachStopsAtError(items, n + 1, hydrate);
    } else {
      assert items[..n] == items;
    }
  }

  /**
   * The state SiteBuilder::fromStorage produces: a PHP version is required; the domain and
   * server default to "", repository and branch to none and the web root to "public"; the
   * nested cron jobs and supervisor programs are hydrated in order.
   */
  function StoredSite(data: seq<(Key, Value)>): (r: Result<SiteDto, BuildError>)
    ensures (var php := Lookup(data, KeyStr("php_version"));
             php.None? || !php.value.Str? || php.value.s == "") ==> r.Err? && r.error.PhpVersionNotStored?
    ensures r.Ok? ==> (r.value.phpVersion != ""
      && r.value.domain == StringField(data, "domain", "")
      && r.value.server == StringField(data, "server", "")
      && r.value.repo == OptStringField(data, "repo")
      && r.value.branch == OptStringField(data, "branch")
      && r.value.webRoot == StringField(data, "web_root", DefaultWebRoot))
  {
    var domain := Coalesce(data, KeyStr("domain"), Str(""));
    var php := Coalesce(data, KeyStr("php_version"), Null);
    if !php.Str? || php.s == "" then
      Err(PhpVersionNotStored(if domain.Str? then domain.s else "unknown"))
    else
      match HydrateEach(Items(Coalesce(data, KeyStr("crons"), Arr([]))), CronFromStorage)
      case Err(e) => Err(e)
      case Ok(crons) =>
        match HydrateEach(Items(Coalesce(data, KeyStr("supervisors"), Arr([]))), SupervisorFromStorage)
        case Err(e) => Err(e)
        case Ok(supervisors) =>
          Ok(SiteDto(
            StringField(data, "domain", ""),
            OptStringField(data, "repo"),
            OptStringField(data, "branch"),
            StringField(data, "server", ""),
            php.s,
            StringField(data, "web_root", DefaultWebRoot),
            crons,
            supervisors))
  }

  /** The failures of the stored site, in the order they are checked. */
  lemma StoredSiteErr(data: seq<(Key, Value)>)
    ensures var domain := Coalesce(data, KeyStr("domain"), Str(""));
      var php := Coalesce(data, KeyStr("php_version"), Null);
      var crons := HydrateEach(Items(Coalesce(data, KeyStr("crons"), Arr([]))), CronFromStorage);
      var supervisors := HydrateEach(Items(Coalesce(data, KeyStr("supervisors"), Arr([]))), SupervisorFromStorage);
      if !php.Str? || php.s == "" then StoredSite(data) == Err(PhpVersionNotStored(if domain.Str? then domain.s else "unknown"))
      else if crons.Err? then StoredSite(data) == Err(crons.error)
      else if supervisors.Err? then StoredSite(data) == Err(supervisors.error)
      else StoredSite(data).Ok?
  {
  }

  /** The stored site when its PHP version is set and its nested entries hydrate. */
  lemma StoredSiteOk(data: seq<(Key, Value)>, php: string, crons: seq<CronDto>, supervisors: seq<SupervisorDto>)
    requires Coalesce(data, KeyStr("php_version"), Null) == Str(php) && php != ""
    requires HydrateEach(Items(Coalesce(data, KeyStr("crons"), Arr([]))), CronFromStorage) == Ok(crons)
    requires HydrateEach(Items(Coalesce(data, KeyStr("supervisors"), Arr([]))), SupervisorFromStorage) == Ok(supervisors)
    ensures StoredSite(data) == Ok(SiteDto(StringField(data, "domain", ""), OptStringField(data, "repo"),
      OptStringField(data, "branch"), StringField(data, "server", ""), php,
      StringField(data, "web_root", DefaultWebRoot), crons, supervisors))
  {
  }

  class SiteBuilder {
    var domain: string
    var repo: Option<string>
    var branch: Option<string>
    var server: string
    var phpVersion: string
    var webRoot: string
    var crons: seq<CronDto>
    var supervisors: seq<SupervisorDto>

    function State(): SiteDto
      reads this
    {
      SiteDto(domain, repo, branch, server, phpVersion, webRoot, crons, supervisors)
    }

    /** SiteBuilder::new: everything empty, web root "public". */
    constructor ()
      ensures State() == SiteDto("", None, None, "", "", DefaultWebRoot, [], [])
    {
      domain := "";
      repo := None;
      branch := None;
      server := "";
      phpVersion := "";
      webRoot := DefaultWebRoot;
      crons := [];
      supervisors := [];
    }

    constructor From(dto: SiteDto)
      ensures State() == dto
    {
      domain := dto.domain;
      repo := dto.repo;
      branch := dto.branch;
      server := dto.server;
      phpVersion := dto.phpVersion;
      webRoot := dto.webRoot;
      crons := dto.crons;
      supervisors := dto.supervisors;
    }

    /** SiteBuilder::fromStorage: fails as StoredSite does, otherwise holds its state. */
    static method FromStorage(data: seq<(Key, Value)>) returns (r: Result<SiteBuilder, BuildError>)
      ensures r.Err? <==> StoredSite(data).Err?
      ensures r.Err? ==> r.error == StoredSite(data).error
      ensures r.Ok? ==> fresh(r.value) && r.value.State() == StoredSite(data).value
    {
      var domainValue := Coalesce(data, KeyStr("domain"), Str(""));
      var php := Coalesce(data, KeyStr("php_version"), Null);
      if !php.Str? || php.s == "" {
        StoredSiteErr(data);
        return Err(PhpVersionNotStored(if domainValue.Str? then domainValue.s else "unknown"));
      }
      var cronList := CollectEach(Items(Coalesce(data, KeyStr("crons"), Arr([]))), CronFromStorage);
      if cronList.Err? {
        StoredSiteErr(data);
        return Err(cronList.error);
      }
      var supervisorList := CollectEach(Items(Coalesce(data, KeyStr("supervisors"), Arr([]))), SupervisorFromStorage);
      if supervisorList.Err? {
        StoredSiteErr(data);
        return Err(supervisorList.error);
      }
      var domain := StringField(data, "domain", "");
      var repo := OptStringField(data, "repo");
      var branch := OptStringField(data, "branch");
      var server := StringField(data, "server", "");
      var webRoot := StringField(data, "web_root", DefaultWebRoot);
      StoredSiteOk(data, php.s, cronList.value, supervisorList.value);
      var b := new SiteBuilder.From(SiteDto(domain, repo, branch, server, php.s, webRoot, cronList.value, supervisorList.value));
      return Ok(b);
    }

    method SetDomain(d: string)
      modifies this
      ensures State() == old(State()).(domain := d)
    {
      domain := d;
    }

    method SetRepo(r: Option<string>)
      modifies this
      ensures State() == old(State()).(repo := r)
    {
      repo := r;
    }

    method SetBranch(b: Option<string>)
      modifies this
      ensures State() == old(State()).(branch := b)
    {
      branch := b;
    }

    method SetServer(s: string)
      modifies this
      ensures State() == old(State()).(server := s)
    {
      server := s;
    }

    method SetPhpVersion(v: string)
      modifies this
      ensures State() == old(State()).(phpVersion := v)
    {
      phpVersion := v;
    }

    method SetWebRoot(w: string)
      modifies this
      ensures State() == old(State()).(webRoot := w)
    {
      webRoot := w;
    }

    /** SiteBuilder::crons: the whole list is replaced. */
    method SetCrons(cs: seq<CronDto>)
      modifies this
      ensures State() == old(State()).(crons := cs)
    {
      crons := cs;
    }

    /** SiteBuilder::addCron: the cron job is appended at the end. */
    method AddCron(c: CronDto)
      modifies this
      ensures State() == old(State()).(crons := old(crons) + [c])
    {
      crons := crons + [c];
    }

    /** SiteBuilder::supervisors: the whole list is replaced. */
    method SetSupervisors(ss: seq<SupervisorDto>)
      modifies this
      ensures State() == old(State()).(supervisors := ss)
    {
      supervisors := ss;
    }

    /** SiteBuilder::addSupervisor: the program is appended at the end. */
    method AddSupervisor(s: SupervisorDto)
      modifies this
      ensures State() == old(State()).(supervisors := old(supervisors) + [s])
    {
      supervisors := supervisors + [s];
    }

    method Build() returns (r: Result<SiteDto, BuildError>)
      ensures r == CheckSite(State())
    {
      if domain == "" {
        return Err(SiteWithoutDomain);
      }
      if server == "" {
        return Err(SiteWithoutServer);
      }
      if phpVersion == "" {
        return Err(SiteWithoutPhpVersion);
      }
      return Ok(State());
    }
  }

  /** `SiteBuilder::from($dto)->build()` gives back a site with domain, server and PHP version. */
  method RebuildSite(dto: SiteDto) returns (r: Result<SiteDto, BuildError>)
    ensures r.Ok? <==> dto.domain != "" && dto.server != "" && dto.phpVersion != ""
    ensures r.Ok? ==> r.value == dto
  {
    var b := new SiteBuilder.From(dto);
    r := b.Build();
  }

  //
  // Site and server pairs
  // ----

  class SiteServerBuilder {
    var site: Option<SiteDto>
    var server: Option<ServerDto>

    /** SiteServerBuilder::new: neither set. */
    constructor ()
      ensures site.None? && server.None?
    {
      site := None;
      server := None;
    }

    /** Setting the site leaves the server as it was. */
    method SetSite(s: SiteDto)
      modifies this
      ensures site == Some(s) && server == old(server)
    {
      site := Some(s);
    }

    /** Setting the server leaves the site as it was. */
    method SetServer(s: ServerDto)
      modifies this
      ensures server == Some(s) && site == old(site)
    {
      server := Some(s);
    }

    /** A site is required, then a server; the pair holds exactly the ones last set. */
    method Build() returns (r: Result<SiteServerDto, BuildError>)
      ensures r.Ok? <==> site.Some? && server.Some?
      ensures r.Ok? ==> r.value == SiteServerDto(site.value, server.value)
      ensures r.Err? ==> r.error == if site.None? then NoSiteSet else NoServerSet
    {
      if site.None? {
        return Err(NoSiteSet);
      }
      if server.None? {
        return Err(NoServerSet);
      }
      return Ok(SiteServerDto(site.value, server.value));
    }
  }

  /** The last site and server set are the ones built, whatever was set before. */
  method PairLastSet(s1: SiteDto, s2: SiteDto, v: ServerDto) returns (r: Result<SiteServerDto, BuildError>)
    ensures r == Ok(SiteServerDto(s2, v))
  {
    var b := new SiteServerBuilder();
    b.SetSite(s1);
    b.SetServer(v);
    b.SetSite(s2);
    r := b.Build();
  }
}
