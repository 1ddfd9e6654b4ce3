/** Every command of the server as one step, and runs of such steps from a new project. */
module Server {
  import opened Wrappers
  import opened Tables
  import opened Commands
  import Coordination
  import AgentSessions
  import Handoffs
  import ContextPacks
  import RepositorySync
  import ProjectRepositories

  datatype Command =
    | StartSession(principal: Id, agentType: string, node: string, observesGit: bool)
    | Heartbeat(principal: Id, allowAll: bool, session: Id)
    | CloseSession(principal: Id, allowAll: bool, session: Id)
    | RevokeSponsor(sponsor: Id)
    | StartWork(principal: Id, allowAll: bool, key: string, hash: Hash, request: Coordination.StartRequest)
    | AttachWorkspace(principal: Id, allowAll: bool, intent: Id, key: string, hash: Hash, workspace: Coordination.WorkspaceInput)
    | UpdateStatus(principal: Id, allowAll: bool, intent: Id, key: string, hash: Hash, change: Coordination.StatusInput)
    | OfferHandoff(principal: Id, allowAll: bool, intent: Id, key: string, hash: Hash, known: set<Id>, offer: Handoffs.OfferInput)
    | AnswerHandoff(principal: Id, allowAll: bool, intent: Id, handoff: Id, key: string, hash: Hash, answer: Handoffs.AnswerInput)
    | Observe(principal: Id, session: Id, key: string, hash: Hash, observation: AgentSessions.ObservationInput)
    | CompileContext(principal: Id, allowAll: bool, activeActor: bool, key: string, hash: Hash, compile: ContextPacks.CompileInput)
    | ApplySnapshot(repository: Id, syncKey: RepositorySync.SyncKey, snapshot: RepositorySync.Snapshot)
    | RecordFailure(repository: Id, fullName: string, errorCode: string)
    | AttachRepository(attach: ProjectRepositories.AttachInput, provider: Option<ProjectRepositories.Provider>)

  /** What a command does as a transaction with timestamp tt. */
  function Exec(t: Tables, tt: Time, c: Command): Result<Effect, Error>
  {
    match c
    case StartSession(principal, agentType, node, observesGit) =>
      AgentSessions.SessionStartEffect(t, tt, principal, agentType, node, observesGit)
    case Heartbeat(principal, allowAll, session) => AgentSessions.HeartbeatEffect(t, tt, principal, allowAll, session)
    case CloseSession(principal, allowAll, session) => AgentSessions.CloseEffect(t, tt, principal, allowAll, session)
    case RevokeSponsor(sponsor) => Ok(Effect(AgentSessions.RevokeSponsorEffect(t, tt, sponsor), NoContent, false))
    case StartWork(principal, allowAll, key, hash, request) =>
      Coordination.StartWorkEffect(t, tt, principal, allowAll, key, hash, request)
    case AttachWorkspace(principal, allowAll, intent, key, hash, workspace) =>
      Coordination.AttachEffect(t, tt, principal, allowAll, intent, key, hash, workspace)
    case UpdateStatus(principal, allowAll, intent, key, hash, change) =>
      Coordination.UpdateStatusEffect(t, tt, principal, allowAll, intent, key, hash, change)
    case OfferHandoff(principal, allowAll, intent, key, hash, known, offer) =>
      Handoffs.OfferEffect(t, tt, principal, allowAll, intent, key, hash, known, offer)
    case AnswerHandoff(principal, allowAll, intent, handoff, key, hash, answer) =>
      Handoffs.AnswerEffect(t, tt, principal, allowAll, intent, handoff, key, hash, answer)
    case Observe(principal, session, key, hash, observation) =>
      AgentSessions.ObserveEffect(t, tt, principal, session, key, hash, observation)
    case CompileContext(principal, allowAll, activeActor, key, hash, compile) =>
      ContextPacks.CompileEffect(t, tt, principal, allowAll, activeActor, key, hash, compile)
    case ApplySnapshot(repository, syncKey, snapshot) => RepositorySync.ApplyEffect(t, tt, repository, syncKey, snapshot)
    case RecordFailure(repository, fullName, errorCode) =>
      RepositorySync.RecordFailureEffect(t, tt, repository, fullName, errorCode)
    case AttachRepository(attach, provider) => ProjectRepositories.AttachEffect(t, tt, attach, provider)
  }

  /** The committed tables after a command: its writes, or what was there before. */
  function Next(t: Tables, tt: Time, c: Command): Tables
  {
    match Exec(t, tt, c)
    case Ok(effect) => effect.tables
    case Err(_) => t
  }

  // ---- Runs ----

  /** A command that BEGAN at tt and took effect at clock. */
  datatype Step = Step(command: Command, tt: Time, clock: Time)

  /** The tables after the steps of a run, one transaction after another. */
  function After(t: Tables, steps: seq<Step>): Tables
  {
    if steps == [] then t
    else
      var last := steps[|steps| - 1];
      Next(After(t, steps[..|steps| - 1]), last.tt, last.command)
  }

  /** Transactions take effect in clock order; each may carry an older timestamp. */
  ghost predicate Timed(steps: seq<Step>)
  {
    && (forall i :: 0 <= i < |steps| ==> steps[i].tt <= steps[i].clock)
    && (forall i, j :: 0 <= i < j < |steps| ==> steps[i].clock <= steps[j].clock)
  }

  lemma AfterSnoc(t: Tables, steps: seq<Step>, n: nat)
    requires n < |steps|
    ensures After(t, steps[..n + 1]) == Next(After(t, steps[..n]), steps[n].tt, steps[n].command)
  {
    assert steps[..n + 1][..n] == steps[..n];
  }

  // ---- The server ----

  class Service {
    const pool: Pool
    const coordination: Coordination.PostgresRepository
    const sessions: AgentSessions.PostgresRepository
    const handoffs: Handoffs.PostgresRepository
    const packs: ContextPacks.PostgresRepository
    const syncs: RepositorySync.PostgresRepository
    const repositories: ProjectRepositories.PostgresRepository

    ghost predicate Wired()
    {
      && coordination.pool == sessions.pool == handoffs.pool == packs.pool == pool
      && syncs.pool == repositories.pool == pool
    }

    constructor (pool: Pool)
      ensures this.pool == pool && Wired()
    {
      this.pool := pool;
      coordination := new Coordination.PostgresRepository(pool);
      sessions := new AgentSessions.PostgresRepository(pool);
      handoffs := new Handoffs.PostgresRepository(pool);
      packs := new ContextPacks.PostgresRepository(pool);
      syncs := new RepositorySync.PostgresRepository(pool);
      repositories := new ProjectRepositories.PostgresRepository(pool);
    }

    /** Every command, through the repository that implements it, is one step of Exec. */
    method Handle(tt: Time, c: Command) returns (outcome: Outcome)
      requires Wired()
      modifies pool
      ensures Settled(old(pool.tables), pool.tables, outcome, Exec(old(pool.tables), tt, c))
      ensures pool.tables == Next(old(pool.tables), tt, c)
    {
      hide AgentSessions.SessionStartEffect, AgentSessions.HeartbeatEffect, AgentSessions.CloseEffect, AgentSessions.ObserveEffect,
        AgentSessions.RevokeSponsorEffect, Coordination.StartWorkEffect, Coordination.AttachEffect, Coordination.UpdateStatusEffect,
        Handoffs.OfferEffect, Handoffs.AnswerEffect, ContextPacks.CompileEffect, RepositorySync.ApplyEffect,
        RepositorySync.RecordFailureEffect, ProjectRepositories.AttachEffect;
      match c
      case StartSession(principal, agentType, node, observesGit) =>
        outcome := sessions.Start(tt, principal, agentType, node, observesGit);
      case Heartbeat(principal, allowAll, session) =>
        outcome := sessions.Heartbeat(tt, principal, allowAll, session);
      case CloseSession(principal, allowAll, session) =>
        outcome := sessions.Close(tt, principal, allowAll, session);
      case RevokeSponsor(sponsor) =>
        outcome := sessions.RevokeSponsor(tt, sponsor);
      case StartWork(principal, allowAll, key, hash, request) =>
        outcome := coordination.StartWork(tt, principal, allowAll, key, hash, request);
      case AttachWorkspace(principal, allowAll, intent, key, hash, workspace) =>
        outcome := coordination.Attach(tt, principal, allowAll, intent, key, hash, workspace);
      case UpdateStatus(principal, allowAll, intent, key, hash, change) =>
        outcome := coordination.UpdateStatus(tt, principal, allowAll, intent, key, hash, change);
      case OfferHandoff(principal, allowAll, intent, key, hash, known, offer) =>
        outcome := handoffs.OfferHandoff(tt, principal, allowAll, intent, key, hash, known, offer);
      case AnswerHandoff(principal, allowAll, intent, handoff, key, hash, answer) =>
        outcome := handoffs.UpdateHandoffStatus(tt, principal, allowAll, intent, handoff, key, hash, answer);
      case Observe(principal, session, key, hash, observation) =>
        outcome := sessions.Observe(tt, principal, session, key, hash, observation);
      case CompileContext(principal, allowAll, activeActor, key, hash, compile) =>
        outcome := packs.Create(tt, principal, allowAll, activeActor, key, hash, compile);
      case ApplySnapshot(repository, syncKey, snapshot) =>
        outcome := syncs.Apply(tt, repository, syncKey, snapshot);
      case RecordFailure(repository, fullName, errorCode) =>
        outcome := syncs.RecordFailure(tt, repository, fullName, errorCode);
      case AttachRepository(attach, provider) =>
        outcome := repositories.Attach(tt, attach, provider);
    }
  }
}
