/** The Tailscale daemon as the CLI commands DockTail issues see it. */
module Daemon {
  import opened Types
  import opened Serve
  import opened ServeStatus

  datatype Command =
    | ServeAdd(args: ServeArgs)
    | PathOff(service: string, kind: string, port: string, path: string)
    | Drain(service: string)
    | Clear(service: string)
    | Advertise(service: string)

  datatype Outcome = Done | NotFound | Conflict | Failed

  datatype Event = Event(cmd: Command, outcome: Outcome)

  /** What a command works on: the Serve configuration and the advertised services. */
  datatype Host = Host(serve: map<Endpoint, Config>, advertised: set<string>)

  function At(serve: map<Endpoint, Config>, e: Endpoint): Option<Config> {
    if e in serve then Some(serve[e]) else None
  }

  function Names(serve: map<Endpoint, Config>): set<string> {
    set e | e in serve :: e.name
  }

  function WithoutName(serve: map<Endpoint, Config>, name: string): map<Endpoint, Config> {
    map e | e in serve && e.name != name :: serve[e]
  }

  function Unmount(serve: map<Endpoint, Config>, e: Endpoint, path: string): map<Endpoint, Config>
    requires e in serve && serve[e].Web?
  {
    var rest := serve[e].handlers - {path};
    if rest == map[] then serve - {e} else serve[e := Web(serve[e].https, rest)]
  }

  /**
   * A command on a daemon that does what it is told. `serve` refuses to change what kind of
   * endpoint a port is, mounts or replaces otherwise, and advertises the service; `clear` forgets
   * every port of a service; `drain` only stops advertising it.
   */
  function Execute(host: Host, cmd: Command): (Host, Outcome) {
    match cmd
    case ServeAdd(args) =>
      var e := Endpoint(args.service, args.port);
      if e in host.serve && KindOf(host.serve[e]) != args.kind then (host, Conflict)
      else (Host(host.serve[e := Recorded(args, At(host.serve, e))], host.advertised + {args.service}), Done)
    case PathOff(service, kind, port, path) =>
      var e := Endpoint(service, port);
      if e in host.serve && KindOf(host.serve[e]) == kind && host.serve[e].Web? && path in host.serve[e].handlers
      then (host.(serve := Unmount(host.serve, e, path)), Done)
      else (host, NotFound)
    case Drain(service) =>
      if service in host.advertised then (host.(advertised := host.advertised - {service}), Done) else (host, NotFound)
    case Clear(service) =>
      if service in Names(host.serve)
      then (host.(serve := WithoutName(host.serve, service)), Done)
      else (host, NotFound)
    case Advertise(service) =>
      (host.(advertised := host.advertised + {service}), Done)
  }

  /** The commands that can change what is served at `e`. */
  predicate Touches(cmd: Command, e: Endpoint) {
    match cmd
    case ServeAdd(args) => e == Endpoint(args.service, args.port)
    case PathOff(service, _, port, _) => e == Endpoint(service, port)
    case Clear(service) => e.name == service
    case Drain(_) => false
    case Advertise(_) => false
  }

  lemma UntouchedStays(host: Host, cmd: Command, e: Endpoint)
    requires !Touches(cmd, e)
    ensures At(Execute(host, cmd).0.serve, e) == At(host.serve, e)
  {
  }

  class Tailscaled {
    /** The host part of the web keys in the status. */
    const webHost: string
    /** Whether commands and reads may fail: a failing command takes effect completely or not at all. */
    const faulty: bool
    var host: Host
    /** Every command issued so far, with its outcome. */
    var log: seq<Event>

    constructor (host: Host, webHost: string, faulty: bool)
      requires PlainHost(webHost)
      ensures this.host == host && this.webHost == webHost && this.faulty == faulty && log == []
    {
      this.host, this.webHost, this.faulty, log := host, webHost, faulty, [];
    }

    method Run(cmd: Command) returns (r: Outcome)
      modifies this
      ensures log == old(log) + [Event(cmd, r)]
      ensures (host, r) == Execute(old(host), cmd)
              || (faulty && r != Done && host in {old(host), Execute(old(host), cmd).0})
    {
      var (next, outcome) := Execute(host, cmd);
      var fails: bool := *;
      var applied: bool := *;
      r := outcome;
      if faulty && fails {
        r :| r != Done;
      } else {
        applied := true;
      }
      if applied {
        host := next;
      }
      log := log + [Event(cmd, r)];
    }

    /** The Serve status, or nothing when the command fails. */
    method GetCurrentServices() returns (r: Result<map<string, ServiceEndpoint>>)
      ensures r.Success? ==>
                || ParsedFrom(Render(host.serve, webHost), r.value)
                || (faulty && r.value == map[])
      ensures !faulty ==> r.Success?
    {
      var fails: bool := *;
      var looksEmpty: bool := *;
      if faulty && fails {
        // "not found" on standard error, or output that is no JSON, is taken for an empty state
        return if looksEmpty then Success(map[]) else Failure;
      }
      var status := Render(host.serve, webHost);
      var services := ParseManagedServices(status);
      return Success(services);
    }

    method GetAdvertisedServices() returns (r: Option<set<string>>)
      ensures r.Some? ==> r.value == host.advertised
      ensures !faulty ==> r.Some?
    {
      var fails: bool := *;
      return if faulty && fails then None else Some(host.advertised);
    }

    /** Whether the cycle's context is still live. */
    method Live() returns (live: bool)
      ensures !faulty ==> live
    {
      var expired: bool := *;
      live := !(faulty && expired);
    }
  }
}
