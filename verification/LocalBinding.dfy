/** Binding a checkout to a server, and the node identity that goes with it: two files, each replaced
    in one step, with a possible crash between them. */
module LocalBinding {
  import opened Wrappers
  import opened Text

  /** A normalised server URL; a stored or given URL that cannot be normalised is None. */
  type Url = string
  type Time = int

  const SCHEMA := 2
  const ZERO_TIME: Time := 0
  const DEFAULT_SERVER: Url := "http://127.0.0.1:8080"

  /** A file of the checkout: missing, not decodable, or holding a value. */
  datatype File<+T> = Absent | Garbled | Present(value: T)

  datatype Config = Config(
    schema: int, server: Option<Url>, workspace: string, repository: string, project: string, fingerprint: string,
    configuredAt: Option<Time>)

  datatype Identity = Identity(schema: int, key: string, name: string, server: Option<Url>)

  datatype Options = Options(server: Option<Url>, workspace: string, repository: string, project: string, rebind: bool)

  datatype Error = NotConnected | Undecodable | InvalidServer | InvalidId | NoRemote | OtherServer | OtherProject | OtherBinding
    | UnexpectedFields | Partial | InvalidFingerprint | UnsupportedSchema | Incomplete | RemoteChanged | InvalidIdentity

  // ---- Validators ----

  predicate HexDigit(c: char)
  {
    '0' <= c <= '9' || 'a' <= c <= 'f' || 'A' <= c <= 'F'
  }

  predicate ValidUuid(s: string)
  {
    |s| == 36 && forall i :: 0 <= i < 36 ==> if i in {8, 13, 18, 23} then s[i] == '-' else HexDigit(s[i])
  }

  predicate ValidFingerprint(s: string)
  {
    "sha256:" <= s && |s| == 71 && forall i :: 7 <= i < 71 ==> HexDigit(s[i])
  }

  predicate Blank(s: string)
  {
    TrimSpace(s) == ""
  }

  predicate NoFields(c: Config)
  {
    Blank(c.workspace) && Blank(c.repository) && Blank(c.project) && Blank(c.fingerprint)
  }

  /** Whether a version 2 configuration is complete; half-filled ones are an error. */
  function CompleteV2(c: Config): Result<bool, Error>
  {
    if NoFields(c) && c.configuredAt.None? then Ok(false)
    else if || Blank(c.workspace) || Blank(c.repository) || Blank(c.project) || Blank(c.fingerprint)
            || c.configuredAt.None? || c.configuredAt.value == ZERO_TIME
    then Err(Partial)
    else if !ValidUuid(c.workspace) || !ValidUuid(c.repository) || !ValidUuid(c.project) then Err(InvalidId)
    else if !ValidFingerprint(c.fingerprint) then Err(InvalidFingerprint)
    else Ok(true)
  }

  predicate HasV2Fields(c: Config)
  {
    c.workspace != "" || c.repository != "" || c.fingerprint != "" || c.configuredAt.Some?
  }

  predicate Complete(c: Config)
  {
    c.schema == SCHEMA && c.server.Some? && CompleteV2(c) == Ok(true)
  }

  predicate ServerOnly(c: Config)
  {
    c.schema == SCHEMA && c.server.Some? && CompleteV2(c) == Ok(false)
  }

  // ---- Node identity ----

  function NewIdentity(name: string, server: Url, newKey: string): Identity
  {
    Identity(SCHEMA, newKey, TrimSpace(name), Some(server))
  }

  /** ensureNodeIdentity: the identity to use with a server, which is also what the file holds afterwards. */
  function EnsureIdentity(file: File<Identity>, server: Url, rotate: bool, host: string, newKey: string): Result<Identity, Error>
  {
    match file
    case Absent => Ok(NewIdentity(if Blank(host) then "local-machine" else host, server, newKey))
    case Garbled => Err(Undecodable)
    case Present(identity) =>
      if !ValidUuid(identity.key) || Blank(identity.name) then Err(InvalidIdentity)
      else if identity.schema == SCHEMA then
        if identity.server.None? then Err(InvalidServer)
        else if identity.server.value == server && !rotate then Ok(identity)
        else Ok(NewIdentity(identity.name, server, newKey))
      else if identity.schema == 1 then
        if rotate then Ok(NewIdentity(identity.name, server, newKey))
        else Ok(identity.(schema := SCHEMA, server := Some(server)))
      else Err(UnsupportedSchema)
  }

  // ---- Loading a binding ----

  /** loadBindingFromConfig: the server of a usable binding. */
  function BoundServer(c: Config, remote: Option<string>): Result<Url, Error>
  {
    if c.server.None? then Err(InvalidServer)
    else if c.schema == 1 then
      if !ValidUuid(c.project) then Err(NotConnected)
      else if HasV2Fields(c) then Err(UnexpectedFields)
      else Ok(c.server.value)
    else if c.schema == SCHEMA then
      var complete :- CompleteV2(c);
      if !complete then Err(Incomplete)
      else if remote.None? then Err(NoRemote)
      else if remote.value != c.fingerprint then Err(RemoteChanged)
      else Ok(c.server.value)
    else Err(UnsupportedSchema)
  }

  function LoadServer(file: File<Config>, remote: Option<string>): Result<Url, Error>
  {
    match file
    case Absent => Err(NotConnected)
    case Garbled => Err(Undecodable)
    case Present(c) => BoundServer(c, remote)
  }

  // ---- Binding ----

  /** What bind decides before it touches a file: keep the configuration, or replace it, and whether the
      node identity must be rotated. */
  datatype Plan = Keep(server: Url) | Replace(target: Config, server: Url, rotate: bool)

  function Target(options: Options, server: Url, fingerprint: string, now: Time): Config
  {
    Config(SCHEMA, Some(server), TrimSpace(options.workspace), TrimSpace(options.repository), TrimSpace(options.project), fingerprint, Some(now))
  }

  predicate SameDestination(c: Config, options: Options)
  {
    c.server == options.server && c.workspace == options.workspace && c.repository == options.repository && c.project == options.project
  }

  function PlanBind(file: File<Config>, options: Options, remote: Option<string>, now: Time): Result<Plan, Error>
  {
    if options.server.None? then Err(InvalidServer)
    else if !ValidUuid(TrimSpace(options.workspace)) || !ValidUuid(TrimSpace(options.repository)) || !ValidUuid(TrimSpace(options.project))
    then Err(InvalidId)
    else if remote.None? then Err(NoRemote)
    else if file.Absent? then Err(NotConnected)
    else if file.Garbled? then Err(Undecodable)
    else PlanOver(file.value, options, options.server.value, remote.value, now)
  }

  /** The same over a configuration that could be read. */
  function PlanOver(current: Config, options: Options, server: Url, fingerprint: string, now: Time): Result<Plan, Error>
  {
    var target := Target(options, server, fingerprint, now);
    if current.server.None? then Err(InvalidServer)
    else
      var serverChanged := current.server.value != server;
      if serverChanged && !options.rebind then Err(OtherServer)
      else if current.schema == 1 then
        if HasV2Fields(current) then Err(UnexpectedFields)
        else if current.project != "" && current.project != options.project && !options.rebind then Err(OtherProject)
        else Ok(Replace(target, server, serverChanged))
      else if current.schema == SCHEMA then
        var complete :- CompleteV2(current);
        if !complete then Ok(Replace(target, server, serverChanged))
        else
          var same := SameDestination(current, options) && current.fingerprint == fingerprint;
          if same then Ok(Keep(server))
          else if !options.rebind then Err(OtherBinding)
          else Ok(Replace(target, server, serverChanged))
      else Err(UnsupportedSchema)
  }

  /** reconcileExistingNodeIdentity: only an identity that is already there is brought in line. */
  function Reconciled(file: File<Identity>, server: Url, rotate: bool, host: string, newKey: string): Result<File<Identity>, Error>
  {
    if file.Absent? then Ok(Absent)
    else
      var identity :- EnsureIdentity(file, server, rotate, host, newKey);
      Ok(Present(identity))
  }

  /** ensureLocalConfig writes only where there is no file, and then only the server. */
  function ServerConfig(server: Url): Config
  {
    Config(SCHEMA, Some(server), "", "", "", "", None)
  }

  // ---- The checkout ----

  class Checkout {
    var config: File<Config>
    var identity: File<Identity>

    constructor ()
      ensures config == Absent && identity == Absent
    {
      config, identity := Absent, Absent;
    }

    /** init's ensureLocalConfig. */
    method EnsureLocalConfig(requested: Option<Url>) returns (created: bool)
      modifies this`config
      ensures created == old(config).Absent?
      ensures config == if created then Present(ServerConfig(if requested.None? then DEFAULT_SERVER else requested.value)) else old(config)
    {
      created := config.Absent?;
      if created {
        config := Present(ServerConfig(if requested.None? then DEFAULT_SERVER else requested.value));
      }
    }

    method EnsureNodeIdentityFor(server: Url, rotate: bool, host: string, newKey: string) returns (r: Result<Identity, Error>)
      modifies this`identity
      ensures r == EnsureIdentity(old(identity), server, rotate, host, newKey)
      ensures identity == if r.Ok? then Present(r.value) else old(identity)
    {
      if identity.Garbled? {
        return Err(Undecodable);
      }
      var name := if Blank(host) then "local-machine" else host;
      if identity.Present? {
        var stored := identity.value;
        if !ValidUuid(stored.key) || Blank(stored.name) {
          return Err(InvalidIdentity);
        }
        if stored.schema == SCHEMA {
          if stored.server.None? {
            return Err(InvalidServer);
          }
          if stored.server.value == server && !rotate {
            return Ok(stored);
          }
        } else if stored.schema == 1 && !rotate {
          stored := stored.(schema := SCHEMA, server := Some(server));
          identity := Present(stored);
          return Ok(stored);
        } else if stored.schema != 1 {
          return Err(UnsupportedSchema);
        }
        name := stored.name;
      }
      var created := NewIdentity(name, server, newKey);
      identity := Present(created);
      return Ok(created);
    }

    method EnsureNodeIdentity(remote: Option<string>, host: string, newKey: string) returns (r: Result<Identity, Error>)
      modifies this`identity
      ensures match LoadServer(config, remote)
        case Err(error) => r == Err(error) && identity == old(identity)
        case Ok(server) =>
          && r == EnsureIdentity(old(identity), server, false, host, newKey)
          && identity == if r.Ok? then Present(r.value) else old(identity)
    {
      var server := LoadServer(config, remote);
      if server.Err? {
        return Err(server.error);
      }
      r := EnsureNodeIdentityFor(server.value, false, host, newKey);
    }

    method Reconcile(server: Url, rotate: bool, host: string, newKey: string) returns (r: Result<(), Error>)
      modifies this`identity
      ensures r.Ok? <==> Reconciled(old(identity), server, rotate, host, newKey).Ok?
      ensures r.Err? ==> Reconciled(old(identity), server, rotate, host, newKey) == Err(r.error)
      ensures identity == if r.Ok? then Reconciled(old(identity), server, rotate, host, newKey).value else old(identity)
    {
      if identity.Absent? {
        return Ok(());
      }
      var ensured := EnsureNodeIdentityFor(server, rotate, host, newKey);
      if ensured.Err? {
        return Err(ensured.error);
      }
      return Ok(());
    }

    /** bind without interruption: the configuration first, then the identity. */
    method Bind(options: Options, remote: Option<string>, now: Time, host: string, newKey: string) returns (r: Result<Url, Error>)
      modifies this
      ensures match PlanBind(old(config), options, remote, now)
        case Err(error) => r == Err(error) && config == old(config) && identity == old(identity)
        case Ok(Keep(server)) =>
          && config == old(config)
          && var reconciled := Reconciled(old(identity), server, false, host, newKey);
          && identity == (if reconciled.Ok? then reconciled.value else old(identity))
          && r == (if reconciled.Ok? then LoadServer(config, remote) else Err(reconciled.error))
        case Ok(Replace(target, server, rotate)) =>
          && config == Present(target)
          && var reconciled := Reconciled(old(identity), server, rotate, host, newKey);
          && identity == (if reconciled.Ok? then reconciled.value else old(identity))
          && r == (if reconciled.Ok? then LoadServer(config, remote) else Err(reconciled.error))
    {
      hide PlanBind, EnsureIdentity, BoundServer;
      var plan := PlanBind(config, options, remote, now);
      if plan.Err? {
        return Err(plan.error);
      }
      var reconciled: Result<(), Error>;
      match plan.value {
        case Keep(server) =>
          reconciled := Reconcile(server, false, host, newKey);
        case Replace(target, server, rotate) =>
          config := Present(target);
          reconciled := Reconcile(server, rotate, host, newKey);
      }
      if reconciled.Err? {
        return Err(reconciled.error);
      }
      r := LoadServer(config, remote);
    }
  }
}
