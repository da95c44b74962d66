/**
 * The inventory's value objects: sites with their cron jobs and supervisor programs, and
 * servers.  The builders construct them and the repositories store them.
 */
module Dtos {
  import opened Wrappers
  import opened PhpValues

  /** A cron job of a site: the script to run and its cron schedule. */
  datatype CronDto = CronDto(script: string, schedule: string)

  /** A supervisor program of a site. */
  datatype SupervisorDto = SupervisorDto(
    program: string,
    script: string,
    autostart: bool,
    autorestart: bool,
    stopwaitsecs: int,
    numprocs: int)

  /** A site: its domain, optional repository and branch, server, PHP version and web root. */
  datatype SiteDto = SiteDto(
    domain: string,
    repo: Option<string>,
    branch: Option<string>,
    server: string,
    phpVersion: string,
    webRoot: string,
    crons: seq<CronDto>,
    supervisors: seq<SupervisorDto>)

  /** A server: how to reach it and, for provisioned servers, the provider's handles. */
  datatype ServerDto = ServerDto(
    name: string,
    host: string,
    port: int,
    username: string,
    privateKeyPath: Option<string>,
    provider: Option<string>,
    dropletId: Option<int>,
    instanceId: Option<string>,
    info: Option<seq<(Key, Value)>>)
  {
    /** A DigitalOcean droplet: the provider is "digitalocean" and a droplet ID is known. */
    predicate IsDo()
      ensures IsDo() ==> provider.Some? && provider != Some("aws")
    {
      provider == Some("digitalocean") && dropletId.Some?
    }

    /** An AWS instance: the provider is "aws" and an instance ID is known. */
    predicate IsAws()
      ensures IsAws() ==> provider.Some? && provider != Some("digitalocean")
    {
      provider == Some("aws") && instanceId.Some?
    }

    /** Provisioned through one of the supported cloud providers. */
    predicate IsProvisioned()
      ensures IsProvisioned() <==> IsDo() != IsAws()
      ensures IsProvisioned() ==> provider == Some("digitalocean") || provider == Some("aws")
    {
      IsDo() || IsAws()
    }
  }

  /** A site together with the server it lives on. */
  datatype SiteServerDto = SiteServerDto(site: SiteDto, server: ServerDto)

  const DefaultPort: int := 22
  const DefaultUsername: string := "root"

  /** `new ServerDTO(name, host)`: port 22, user "root" and no key, provider or info. */
  function NewServer(name: string, host: string): (s: ServerDto)
    ensures s.name == name && s.host == host
    ensures s.port == DefaultPort && s.username == DefaultUsername
    ensures s.privateKeyPath.None? && s.provider.None? && s.dropletId.None? && s.instanceId.None? && s.info.None?
    ensures !s.IsProvisioned()
  {
    ServerDto(name, host, DefaultPort, DefaultUsername, None, None, None, None, None)
  }

  /** A server is never both a droplet and an AWS instance: the provider tells them apart. */
  lemma ProvidersExclusive(s: ServerDto)
    ensures !(s.IsDo() && s.IsAws())
  {
  }
}
