/** Binding with interruptions: several processes work on one checkout, and any of them may crash
    between its two file writes. */
module BindingRuns {
  import opened Wrappers
  import opened Text
  import opened LocalBinding

  datatype Reconciliation = Reconciliation(server: Url, rotate: bool)

  /** The two files; the binding process between its writes, if any (the lock admits one); the servers
      that ensuring processes have loaded; and, for the record, every pair of key and server ever in
      use and every key ever drawn. */
  datatype Machine = Machine(
    config: File<Config>, identity: File<Identity>, binder: Option<Reconciliation>, ensurers: map<nat, Url>,
    uses: set<(string, Url)>, keys: set<string>)

  datatype Step =
    | Init(requested: Option<Url>)
    | BindConfig(options: Options, remote: Option<string>, now: Time)
    | BindIdentity(host: string, newKey: string)
    | BinderCrash
    | EnsureLoad(process: nat, remote: Option<string>)
    | EnsureIdentityOf(process: nat, host: string, newKey: string)
    | EnsurerCrash(process: nat)

  /** The Git fingerprint is a digest, the clock is set, and a new key is a UUID never drawn before. */
  ghost predicate Possible(m: Machine, step: Step)
  {
    match step
    case Init(_) => m.binder.None?
    case BindConfig(_, remote, now) => m.binder.None? && now != ZERO_TIME && (remote.Some? ==> ValidFingerprint(remote.value))
    case BindIdentity(_, newKey) => m.binder.Some? && newKey !in m.keys && ValidUuid(newKey)
    case BinderCrash => true
    case EnsureLoad(_, _) => true
    case EnsureIdentityOf(process, _, newKey) => process in m.ensurers && newKey !in m.keys && ValidUuid(newKey)
    case EnsurerCrash(process) => true
  }

  function AfterBind(m: Machine, plan: Plan): Machine
  {
    match plan
    case Keep(server) => m.(binder := Some(Reconciliation(server, false)))
    case Replace(target, server, rotate) => m.(config := Present(target), binder := Some(Reconciliation(server, rotate)))
  }

  /** Handing an identity out: the file holds it, and its key is in use with its server. */
  function Use(m: Machine, identity: Identity, newKey: string): Machine
  {
    m.(identity := Present(identity),
       uses := if identity.server.Some? then m.uses + {(identity.key, identity.server.value)} else m.uses,
       keys := m.keys + {newKey})
  }

  function Take(m: Machine, step: Step): Machine
    requires Possible(m, step)
  {
    match step
    case Init(requested) =>
      if m.config.Absent? then m.(config := Present(ServerConfig(if requested.None? then DEFAULT_SERVER else requested.value))) else m
    case BindConfig(options, remote, now) =>
      (match PlanBind(m.config, options, remote, now)
       case Ok(plan) => AfterBind(m, plan)
       case Err(_) => m)
    case BindIdentity(host, newKey) =>
      var b := m.binder.value;
      (match Reconciled(m.identity, b.server, b.rotate, host, newKey)
       case Ok(Present(identity)) => Use(m, identity, newKey).(binder := None)
       case _ => m.(binder := None))
    case BinderCrash => m.(binder := None)
    case EnsureLoad(process, remote) =>
      (match LoadServer(m.config, remote)
       case Ok(server) => m.(ensurers := m.ensurers[process := server])
       case Err(_) => m)
    case EnsureIdentityOf(process, host, newKey) =>
      (match EnsureIdentity(m.identity, m.ensurers[process], false, host, newKey)
       case Ok(identity) => Use(m, identity, newKey).(ensurers := m.ensurers - {process})
       case Err(_) => m.(ensurers := m.ensurers - {process}))
    case EnsurerCrash(process) => m.(ensurers := m.ensurers - {process})
  }

  ghost predicate Run(m: Machine, steps: seq<Step>)
    decreases |steps|
  {
    steps == [] || (Possible(m, steps[0]) && Run(Take(m, steps[0]), steps[1..]))
  }

  function TakeAll(m: Machine, steps: seq<Step>): Machine
    requires Run(m, steps)
    decreases |steps|
  {
    if steps == [] then m else TakeAll(Take(m, steps[0]), steps[1..])
  }

  // ---- What is written ----

  lemma TrimmedUuidIsThere(s: string)
    requires ValidUuid(TrimSpace(s))
    ensures !Blank(TrimSpace(s))
  {
    var t := TrimSpace(s);
    if Blank(t) {
      TrimOfTrimmed(t);
    }
  }

  /** A UUID has nothing to trim. */
  lemma TrimOfTrimmed(t: string)
    requires ValidUuid(t)
    ensures TrimSpace(t) == t
  {
    assert HexDigit(t[0]) && HexDigit(t[35]);
  }

  lemma FingerprintIsThere(s: string)
    requires ValidFingerprint(s)
    ensures !Blank(s)
  {
    assert HexDigit(s[70]) && s[0] == "sha256:"[0];
    assert TrimSpace(s) == s;
  }

  /** Every configuration that is written is complete, or holds the server only. */
  lemma WrittenConfigs(m: Machine, step: Step)
    requires Possible(m, step) && Take(m, step).config != m.config
    ensures Take(m, step).config.Present?
    ensures Complete(Take(m, step).config.value) || ServerOnly(Take(m, step).config.value)
  {
    hide ValidUuid, ValidFingerprint, Blank;
    if step.BindConfig? {
      TrimmedUuidIsThere(step.options.workspace);
      TrimmedUuidIsThere(step.options.repository);
      TrimmedUuidIsThere(step.options.project);
      FingerprintIsThere(step.remote.value);
    } else {
      NothingIsBlank();
    }
  }

  lemma NothingIsBlank()
    ensures Blank("")
  {
  }

  // ---- A complete binding stays ----

  ghost predicate NoRebind(step: Step)
  {
    step.BindConfig? ==> !step.options.rebind
  }

  lemma BindingStays(m: Machine, step: Step)
    requires Possible(m, step) && NoRebind(step) && m.config.Present? && Complete(m.config.value)
    ensures Take(m, step).config == m.config
  {
    hide CompleteV2;
  }

  /** Without Rebind a complete binding never changes, whatever runs and crashes. */
  lemma {:induction false} CompleteBindingNeverChanges(m: Machine, steps: seq<Step>)
    requires Run(m, steps) && m.config.Present? && Complete(m.config.value)
    requires forall i :: 0 <= i < |steps| ==> NoRebind(steps[i])
    ensures TakeAll(m, steps).config == m.config
    decreases |steps|
  {
    hide Take, Possible, Complete;
    if steps != [] {
      BindingStays(m, steps[0]);
      CompleteBindingNeverChanges(Take(m, steps[0]), steps[1..]);
    }
  }

  // ---- Keys ----

  /** No key is in use with two servers. */
  ghost predicate OneServerEach(m: Machine)
  {
    forall k: string, s: Url, u: Url :: (k, s) in m.uses && (k, u) in m.uses ==> s == u
  }

  /** Every key in use, and that of the identity file, has been drawn; an identity that names a server
      is in line with the uses of its key. */
  ghost predicate KeysKept(m: Machine)
  {
    && (forall k: string, s: Url :: (k, s) in m.uses ==> k in m.keys)
    && (m.identity.Present? ==>
          && m.identity.value.key in m.keys
          && (m.identity.value.schema == SCHEMA && m.identity.value.server.Some? ==> UsedOnlyWith(m, m.identity.value.key, m.identity.value.server.value)))
  }

  ghost predicate UsedOnlyWith(m: Machine, key: string, server: Url)
  {
    forall s: Url :: (key, s) in m.uses ==> s == server
  }

  /** A version 1 identity that ensureNodeIdentity migrates. */
  predicate Legacy(file: File<Identity>)
  {
    file.Present? && file.value.schema == 1 && ValidUuid(file.value.key) && !Blank(file.value.name)
  }

  /** The server to which a step would migrate a version 1 identity: the branch that keeps the key. */
  function MigratesTo(m: Machine, step: Step): Option<Url>
    requires Possible(m, step)
  {
    match step
    case BindIdentity(_, _) => if m.binder.value.rotate then None else Some(m.binder.value.server)
    case EnsureIdentityOf(process, _, _) => Some(m.ensurers[process])
    case _ => None
  }

  /** A step that migrates a version 1 identity does so for the only server its key is in use with, if any. */
  ghost predicate StepFits(m: Machine, step: Step)
    requires Possible(m, step)
  {
    Legacy(m.identity) && MigratesTo(m, step).Some? ==> UsedOnlyWith(m, m.identity.value.key, MigratesTo(m, step).value)
  }

  /** One step keeps every key with one server if and only if it fits. */
  lemma KeysByStep(m: Machine, step: Step)
    requires KeysKept(m) && OneServerEach(m) && Possible(m, step)
    ensures OneServerEach(Take(m, step)) <==> StepFits(m, step)
    ensures StepFits(m, step) ==> KeysKept(Take(m, step))
  {
    hide PlanBind, LoadServer, ValidUuid, Blank;
  }

  /** Uses are never forgotten. */
  lemma {:induction false} UsesStay(m: Machine, steps: seq<Step>)
    requires Run(m, steps)
    ensures m.uses <= TakeAll(m, steps).uses
    decreases |steps|
  {
    if steps != [] {
      assert m.uses <= Take(m, steps[0]).uses by { hide PlanBind, LoadServer, EnsureIdentity, Reconciled; }
      hide Take, Possible;
      UsesStay(Take(m, steps[0]), steps[1..]);
    }
  }

  ghost predicate RunFits(m: Machine, steps: seq<Step>)
    requires Run(m, steps)
    decreases |steps|
  {
    steps == [] || (StepFits(m, steps[0]) && RunFits(Take(m, steps[0]), steps[1..]))
  }

  /** However binding and ensuring processes interleave and wherever they crash: no key is ever in use
      with two servers if and only if every migration of a version 1 identity is for the only server
      its key is in use with at that moment. */
  lemma {:induction false} KeysOverRuns(m: Machine, steps: seq<Step>)
    requires Run(m, steps) && KeysKept(m) && OneServerEach(m)
    ensures OneServerEach(TakeAll(m, steps)) <==> RunFits(m, steps)
    decreases |steps|
  {
    hide Take, Possible, KeysKept, StepFits;
    if steps != [] {
      var r := Take(m, steps[0]);
      KeysByStep(m, steps[0]);
      if StepFits(m, steps[0]) {
        KeysOverRuns(r, steps[1..]);
      } else {
        UsesStay(r, steps[1..]);
      }
    }
  }

  /** Nothing to migrate, or a version 1 identity whose key is in use with no server yet. */
  ghost predicate KeysSound(m: Machine)
  {
    && KeysKept(m)
    && OneServerEach(m)
    && (Legacy(m.identity) ==> forall s: Url :: (m.identity.value.key, s) !in m.uses)
  }

  lemma StepKeepsKeys(m: Machine, step: Step)
    requires KeysSound(m) && Possible(m, step)
    ensures KeysSound(Take(m, step)) && StepFits(m, step)
  {
    KeysByStep(m, step);
    hide PlanBind, LoadServer, ValidUuid, Blank, KeysKept, OneServerEach;
  }

  /** In particular no key ever serves two when the start is without an identity, with a version 2
      identity, or with a version 1 identity whose key has not been used. */
  lemma {:induction false} NoKeyServesTwo(m: Machine, steps: seq<Step>)
    requires Run(m, steps) && KeysSound(m)
    ensures KeysSound(TakeAll(m, steps)) && RunFits(m, steps)
    ensures forall k: string, s: Url, u: Url :: (k, s) in TakeAll(m, steps).uses && (k, u) in TakeAll(m, steps).uses ==> s == u
    decreases |steps|
  {
    hide Take, Possible, StepFits;
    if steps != [] {
      StepKeepsKeys(m, steps[0]);
      NoKeyServesTwo(Take(m, steps[0]), steps[1..]);
    }
  }

  // ---- Who an identity is for ----

  /** Whether the step writes a configuration over the one that is there. */
  function Rebinding(m: Machine, step: Step): Option<Url>
  {
    if step.BindConfig? then
      match PlanBind(m.config, step.options, step.remote, step.now)
      case Ok(Replace(_, server, _)) => Some(server)
      case _ => None
    else None
  }

  /** The servers of the configurations written during a run, in order. */
  function Rebindings(m: Machine, steps: seq<Step>): seq<Url>
    requires Run(m, steps)
    decreases |steps|
  {
    if steps == [] then []
    else
      var rest := Rebindings(Take(m, steps[0]), steps[1..]);
      if Rebinding(m, steps[0]).Some? then [Rebinding(m, steps[0]).value] + rest else rest
  }

  /** The step belongs to another process. */
  predicate Elsewhere(process: nat, step: Step)
  {
    match step
    case EnsureLoad(p, _) => p != process
    case EnsureIdentityOf(p, _, _) => p != process
    case EnsurerCrash(p) => p != process
    case _ => true
  }

  lemma StepElsewhere(m: Machine, process: nat, server: Url, step: Step)
    requires Possible(m, step) && Elsewhere(process, step)
    requires process in m.ensurers && m.config.Present? && m.config.value.server == Some(server)
    ensures var r := Take(m, step);
      && process in r.ensurers && r.ensurers[process] == m.ensurers[process]
      && r.config.Present?
      && r.config.value.server == Some(if Rebinding(m, step).Some? then Rebinding(m, step).value else server)
  {
    hide LoadServer, EnsureIdentity, Reconciled, CompleteV2, ValidUuid;
  }

  /** While others work, a loaded server stays loaded, and the checkout is bound to the server of the last
      configuration written. */
  lemma {:induction false} RunElsewhere(m: Machine, process: nat, server: Url, steps: seq<Step>)
    requires Run(m, steps) && forall i :: 0 <= i < |steps| ==> Elsewhere(process, steps[i])
    requires process in m.ensurers && m.config.Present? && m.config.value.server == Some(server)
    ensures var r, written := TakeAll(m, steps), Rebindings(m, steps);
      && process in r.ensurers && r.ensurers[process] == m.ensurers[process]
      && r.config.Present?
      && r.config.value.server == Some(if written == [] then server else written[|written| - 1])
    decreases |steps|
  {
    hide Take, Possible, Rebinding;
    if steps != [] {
      StepElsewhere(m, process, server, steps[0]);
      var now := if Rebinding(m, steps[0]).Some? then Rebinding(m, steps[0]).value else server;
      RunElsewhere(Take(m, steps[0]), process, now, steps[1..]);
    }
  }

  lemma EnsuredForTheLoadedServer(file: File<Identity>, server: Url, rotate: bool, host: string, newKey: string)
    requires EnsureIdentity(file, server, rotate, host, newKey).Ok?
    ensures EnsureIdentity(file, server, rotate, host, newKey).value.server == Some(server)
  {
  }

  /** EnsureNodeIdentity returns an identity for the server it loaded, which is also what the file holds
      then. Whatever others do between the load and the write, it is for the server the checkout is
      bound to by then if and only if no configuration was written in between or the last one written
      names the same server. */
  lemma EnsuredForTheBoundServer(m: Machine, process: nat, remote: Option<string>, steps: seq<Step>, host: string, newKey: string)
    requires LoadServer(m.config, remote).Ok?
    requires Run(Take(m, EnsureLoad(process, remote)), steps) && forall i :: 0 <= i < |steps| ==> Elsewhere(process, steps[i])
    requires var late := TakeAll(Take(m, EnsureLoad(process, remote)), steps);
      && Possible(late, EnsureIdentityOf(process, host, newKey))
      && EnsureIdentity(late.identity, late.ensurers[process], false, host, newKey).Ok?
    ensures var loaded := Take(m, EnsureLoad(process, remote));
      var late, written := TakeAll(loaded, steps), Rebindings(loaded, steps);
      var r := EnsureIdentity(late.identity, late.ensurers[process], false, host, newKey).value;
      && r.server == Some(LoadServer(m.config, remote).value)
      && Take(late, EnsureIdentityOf(process, host, newKey)).identity == Present(r)
      && late.config.Present?
      && (late.config.value.server == r.server <==> written == [] || Some(written[|written| - 1]) == r.server)
  {
    LoadedFromConfig(m.config, remote);
    var server, loaded := LoadServer(m.config, remote).value, Take(m, EnsureLoad(process, remote));
    assert loaded == m.(ensurers := m.ensurers[process := server]);
    var late := TakeAll(loaded, steps);
    hide LoadServer, Run, TakeAll, Rebindings, EnsureIdentity, Reconciled, PlanBind;
    RunElsewhere(loaded, process, server, steps);
    EnsuredForTheLoadedServer(late.identity, server, false, host, newKey);
  }

  lemma LoadedFromConfig(config: File<Config>, remote: Option<string>)
    requires LoadServer(config, remote).Ok?
    ensures config.Present? && config.value.server == Some(LoadServer(config, remote).value)
  {
    hide CompleteV2, ValidUuid;
  }

  /** Reconciling after a crash: the identity of the old server is replaced the next time it is needed, so
      a crash between the two writes leaves nothing to repair by hand. */
  lemma CrashIsRepaired(m: Machine, server: Url, rotate: bool, host: string, newKey: string)
    requires m.identity.Present? && m.identity.value.schema == SCHEMA && m.identity.value.server.Some?
    requires ValidUuid(m.identity.value.key) && !Blank(m.identity.value.name)
    requires m.identity.value.server.value != server
    ensures EnsureIdentity(m.identity, server, false, host, newKey) == EnsureIdentity(m.identity, server, rotate, host, newKey)
    ensures EnsureIdentity(m.identity, server, false, host, newKey).value.key == newKey
  {
  }

  // ---- Version 1 identities ----

  /** A bound checkout with a version 1 identity whose key is in use with the bound server, and a request
      to rebind it to another. */
  ghost predicate LegacyBound(m: Machine, previous: Url, remote: string)
  {
    && LoadServer(m.config, Some(remote)) == Ok(previous)
    && m.binder.None?
    && Legacy(m.identity)
    && (m.identity.value.key, previous) in m.uses
  }

  predicate RebindsTo(options: Options, server: Url)
  {
    && options.rebind
    && options.server == Some(server)
    && ValidUuid(TrimSpace(options.workspace)) && ValidUuid(TrimSpace(options.repository)) && ValidUuid(TrimSpace(options.project))
  }

  /** The same checkout with the new configuration written and the identity not yet rotated. */
  ghost predicate LegacyBeingRebound(m: Machine, previous: Url, server: Url, remote: string)
  {
    && previous != server
    && LoadServer(m.config, Some(remote)) == Ok(server)
    && m.binder == Some(Reconciliation(server, true))
    && Legacy(m.identity)
    && (m.identity.value.key, previous) in m.uses
  }

  /** Binding gets there. */
  lemma RebindReachesLegacy(m: Machine, previous: Url, server: Url, options: Options, remote: string, now: Time)
    requires LegacyBound(m, previous, remote) && RebindsTo(options, server) && previous != server
    requires ValidFingerprint(remote) && now != ZERO_TIME
    ensures Possible(m, BindConfig(options, Some(remote), now))
    ensures var r := Take(m, BindConfig(options, Some(remote), now));
      && LegacyBeingRebound(r, previous, server, remote)
      && r.identity == m.identity && r.keys == m.keys && r.uses == m.uses
  {
    hide PlanBind, LoadServer, ValidUuid, ValidFingerprint, Blank, RebindsTo, Legacy, Target;
    TargetIsBound(options, server, remote, now);
    RebindIsPlanned(m.config, previous, server, options, remote, now);
  }

  lemma RebindIsPlanned(config: File<Config>, previous: Url, server: Url, options: Options, remote: string, now: Time)
    requires LoadServer(config, Some(remote)) == Ok(previous) && RebindsTo(options, server) && previous != server
    ensures PlanBind(config, options, Some(remote), now) == Ok(Replace(Target(options, server, remote, now), server, true))
  {
    hide ValidUuid, ValidFingerprint, Blank, Target;
  }

  lemma TargetIsBound(options: Options, server: Url, remote: string, now: Time)
    requires RebindsTo(options, server) && ValidFingerprint(remote) && now != ZERO_TIME
    ensures LoadServer(Present(Target(options, server, remote, now)), Some(remote)) == Ok(server)
  {
    hide ValidUuid, ValidFingerprint, Blank;
    TrimmedUuidIsThere(options.workspace);
    TrimmedUuidIsThere(options.repository);
    TrimmedUuidIsThere(options.project);
    FingerprintIsThere(remote);
  }

  lemma Prepended(m: Machine, step: Step, steps: seq<Step>)
    requires Possible(m, step) && Run(Take(m, step), steps)
    ensures Run(m, [step] + steps) && TakeAll(m, [step] + steps) == TakeAll(Take(m, step), steps)
  {
    hide Possible, Take;
    assert ([step] + steps)[1..] == steps;
  }

  /** A process that ensures its identity between the two writes migrates the key to the new server. */
  lemma EnsuringKeepsLegacyKey(m: Machine, server: Url, remote: string, process: nat, host: string, newKey: string)
    requires LoadServer(m.config, Some(remote)) == Ok(server) && Legacy(m.identity) && newKey !in m.keys && ValidUuid(newKey)
    ensures var steps := [EnsureLoad(process, Some(remote)), EnsureIdentityOf(process, host, newKey)];
      && Run(m, steps)
      && m.uses <= TakeAll(m, steps).uses
      && (m.identity.value.key, server) in TakeAll(m, steps).uses
  {
    hide LoadServer, ValidUuid, Blank, Run, TakeAll;
    var load, ensure := EnsureLoad(process, Some(remote)), EnsureIdentityOf(process, host, newKey);
    var loaded := m.(ensurers := m.ensurers[process := server]);
    assert Possible(m, load) && Take(m, load) == loaded;
    assert Possible(loaded, ensure);
    var r := Take(loaded, ensure);
    assert m.uses <= r.uses && (m.identity.value.key, server) in r.uses;
    hide Possible, Take;
    NoSteps(r);
    Prepended(loaded, ensure, []);
    Prepended(m, load, [ensure] + []);
    assert [load] + ([ensure] + []) == [load, ensure];
  }

  lemma NoSteps(m: Machine)
    ensures Run(m, []) && TakeAll(m, []) == m
  {
  }

  /** Between the two writes of a rebind the key of a version 1 identity is at risk: a process that
      ensures its identity there migrates the key to the new server, whether the binding process is
      still at work or has crashed, and the key then serves two. Left alone, binding replaces the key. */
  lemma LegacyKeyCanServeTwo(
    m: Machine, previous: Url, server: Url, options: Options, remote: string, now: Time, process: nat, host: string, newKey: string)
    requires LegacyBound(m, previous, remote) && RebindsTo(options, server) && previous != server
    requires ValidFingerprint(remote) && now != ZERO_TIME && newKey !in m.keys && ValidUuid(newKey)
    ensures var bind, ensure := BindConfig(options, Some(remote), now), [EnsureLoad(process, Some(remote)), EnsureIdentityOf(process, host, newKey)];
      && ServesTwo(m, [bind] + ensure, previous, server)
      && ServesTwo(m, [bind] + ([BinderCrash] + ensure), previous, server)
    ensures Possible(m, BindConfig(options, Some(remote), now))
    ensures var rebound := Take(m, BindConfig(options, Some(remote), now));
      && Possible(rebound, BindIdentity(host, newKey))
      && Take(rebound, BindIdentity(host, newKey)).identity == Present(NewIdentity(m.identity.value.name, server, newKey))
  {
    var bind, ensure := BindConfig(options, Some(remote), now), [EnsureLoad(process, Some(remote)), EnsureIdentityOf(process, host, newKey)];
    RebindReachesLegacy(m, previous, server, options, remote, now);
    var rebound := Take(m, bind);
    assert Take(rebound, BindIdentity(host, newKey)).identity == Present(NewIdentity(m.identity.value.name, server, newKey)) by {
      hide LoadServer, PlanBind, ValidUuid, Blank;
    }
    var crashed := Take(rebound, BinderCrash);
    assert crashed == rebound.(binder := None);
    assert Possible(rebound, BinderCrash);
    hide Take, LoadServer, ValidUuid, Blank, PlanBind, Run, TakeAll, Possible;
    EnsuringKeepsLegacyKey(rebound, server, remote, process, host, newKey);
    EnsuringKeepsLegacyKey(crashed, server, remote, process, host, newKey);
    Prepended(m, bind, ensure);
    Prepended(rebound, BinderCrash, ensure);
    Prepended(m, bind, [BinderCrash] + ensure);
  }

  /** The run is possible, and after it the key of the identity it started with is in use with both servers. */
  ghost predicate ServesTwo(m: Machine, steps: seq<Step>, previous: Url, server: Url)
    requires m.identity.Present?
  {
    && Run(m, steps)
    && (m.identity.value.key, previous) in TakeAll(m, steps).uses
    && (m.identity.value.key, server) in TakeAll(m, steps).uses
  }
}
