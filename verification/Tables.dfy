/** The tables of one organization and one project, the rows the commands read and write, and the
    pool through which the repositories reach them. */
module Tables {
  import opened Wrappers
  import opened Scopes

  /** Row identifiers: every insert draws the next unused number, as uuidv7 never repeats. */
  type Id = nat

  /** Seconds. Every transaction carries the timestamp of its BEGIN. */
  type Time = int

  const SESSION_TTL: Time := 45
  const SCOPE_LEASE: Time := 60
  const HOUR: Time := 3600
  const MINUTE: Time := 60

  /** An agent is determined by its sponsor and its type: upsertAgent serialises on that pair. */
  datatype Agent = Agent(sponsor: Id, agentType: string)

  datatype SessionStatus = Starting | SessionActive | Stale | Closed | SessionExpired

  datatype Session = Session(
    actor: Agent, node: string, status: SessionStatus, observesGit: bool,
    startedAt: Time, lastSeenAt: Time, expiresAt: Time)

  datatype IntentStatus = Draft | Active | Blocked | Submitted | Completed | Cancelled | Abandoned

  datatype Intent = Intent(
    title: string, baseRevision: string, responsible: Agent, status: IntentStatus,
    summary: Option<string>, version: nat, completedAt: Option<Time>)

  datatype ClaimStatus = ClaimActive | Released

  datatype Claim = Claim(
    intent: Id, session: Id, repository: Id, scope: Scope, status: ClaimStatus,
    createdAt: Time, renewedAt: Time, expiresAt: Time)

  datatype WorktreeStatus = Provisioning | Ready | WorktreeActive | Frozen | Archived | WorktreeFailed

  datatype Worktree = Worktree(
    intent: Id, session: Id, repository: Id, baseRevision: string, status: WorktreeStatus, version: nat)

  datatype HandoffStatus = Offered | Accepted | Withdrawn | HandoffExpired

  datatype Handoff = Handoff(
    intent: Id, fromSession: Id, from: Agent, toSession: Option<Id>, to: Option<Agent>,
    status: HandoffStatus, summary: string, records: seq<Id>, version: nat,
    offeredAt: Time, respondedAt: Option<Time>, expiresAt: Time)

  datatype Observation = Observation(
    session: Id, worktree: Option<Id>, dirty: bool, fingerprint: string, head: Option<string>, version: nat)

  datatype RepositoryStatus = RepositoryActive | RepositoryLost | RepositoryArchived

  datatype Repository = Repository(
    slug: string, github: Option<int>, remoteName: string, purpose: string, required: bool,
    branch: string, status: RepositoryStatus, version: nat)

  datatype SyncStatus = Synced | SyncFailed

  datatype ProviderState = ProviderState(
    provider: string, fullName: string, status: SyncStatus, branch: string, revision: Option<string>,
    visibility: string, attemptAt: Time, successAt: Option<Time>, errorCode: Option<string>, version: nat)

  datatype Pack = Pack(intent: Id, cursor: nat, gitRevision: string, createdAt: Time, expiresAt: Time)

  datatype Project = Project(
    archived: bool, root: Option<Id>, revision: Option<string>, sequence: nat, version: nat)

  // ---- Overlaps ----

  datatype Overlap = Overlap(
    requested: Scope, claim: Id, intent: Id, title: string, status: IntentStatus, actor: Agent,
    scope: Scope, blocking: bool, reason: OverlapReason, expiresAt: Time)

  // ---- Events ----

  datatype Aggregate =
    | ProjectAggregate
    | IntentAggregate(intent: Id)
    | WorktreeAggregate(worktree: Id)
    | HandoffAggregate(handoff: Id)
    | ObservationAggregate(session: Id, inWorktree: Option<Id>)
    | ProviderAggregate(provider: Id)
    | RepositoryAggregate(repository: Id)
    | PackAggregate(pack: Id)

  datatype ObservationKind = DiffUpdated | HeadUpdated | ExternalChange

  datatype Payload =
    | ProjectCreated(createdRoot: Option<Id>, createdRevision: Option<string>)
    | IntentStarted(claims: seq<Id>, overlaps: seq<Overlap>, overlapOverride: bool)
    | IntentMoved(intentStatus: IntentStatus)
    | WorktreeReady
    | HandoffOffered
    | HandoffMoved(handoffStatus: HandoffStatus)
    | ObservationNoted(kind: ObservationKind)
    | CanonicalSynced(syncedRevision: string)
    | SyncFailureNoted(errorCode: string)
    | RepositoryAttached(primary: bool)
    | ContextCompiled(cursor: nat)

  /** An event is identified by its project sequence. */
  datatype Event = Event(sequence: nat, aggregate: Aggregate, version: nat, command: Id, payload: Payload)

  // ---- Commands ----

  datatype CommandType =
    | WorkStart | WorkspaceAttach | IntentStatusChange | HandoffOffer | HandoffStatusChange
    | RepositoryObserve | RepositorySync | ContextCompile

  datatype CommandKey = CommandKey(commandType: CommandType, key: string)

  /** The digest of a canonical request. */
  type Hash = nat

  datatype Response =
    | StartedWork(intent: Id, intentRow: Intent, claims: seq<Id>, overlaps: seq<Overlap>, event: nat)
    | AttachedWorktree(worktree: Id, worktreeRow: Worktree, event: nat)
    | MovedIntent(intent: Id, intentRow: Intent, event: nat)
    | HandoffResult(handoff: Id, handoffRow: Handoff, event: nat)
    | Observed(observation: Observation, noted: Option<ObservationKind>)
    | Compiled(pack: Id, packRow: Pack, event: nat)
    | Synchronised(state: ProviderState, changed: bool)
    | SessionRow(session: Id, sessionRow: Session)
    | RepositoryRow(repository: Id, repositoryRow: Repository)
    | NoContent

  /** outcome and response_body are null until the command completes. */
  datatype CommandRecord = CommandRecord(hash: Hash, command: Id, body: Option<Response>)

  datatype Error =
    | NotFound
    | Forbidden
    | RepositoryUnavailable
    | ScopeConflict(overlaps: seq<Overlap>)
    | InvalidScopes(scopeError: ScopeError)
    | VersionConflict
    | InvalidTransition
    | WorkspaceExists
    | IdempotencyConflict
    | CommandIncomplete
    | HandoffExists
    | InvalidHandoffStatus
    | OwnHandoff
    | KnowledgeRecordNotFound
    | ProviderNotFound
    | ConstraintViolation

  datatype Tables = Tables(
    project: Project,
    repositories: map<Id, Repository>,
    providers: map<Id, ProviderState>,
    sessions: map<Id, Session>,
    intents: map<Id, Intent>,
    claims: map<Id, Claim>,
    worktrees: map<Id, Worktree>,
    handoffs: map<Id, Handoff>,
    observations: map<(Id, Option<Id>), Observation>,
    packs: map<Id, Pack>,
    commands: map<CommandKey, CommandRecord>,
    counter: nat,
    events: seq<Event>,
    outbox: seq<nat>,
    nextId: Id)

  /** What a committed transaction leaves behind and answers. */
  datatype Effect = Effect(tables: Tables, response: Response, replayed: bool)

  datatype Outcome = Done(response: Response, replayed: bool) | Failed(error: Error)

  /** The connection pool: the committed tables, shared by every repository. */
  class Pool {
    var tables: Tables

    constructor (tables: Tables)
      ensures this.tables == tables
    {
      this.tables := tables;
    }
  }

  /** A transaction either commits all its writes or leaves the committed tables as they were. */
  ghost predicate Settled(before: Tables, after: Tables, outcome: Outcome, spec: Result<Effect, Error>)
  {
    match spec
    case Ok(effect) => after == effect.tables && outcome == Done(effect.response, effect.replayed)
    case Err(error) => after == before && outcome == Failed(error)
  }

  // ---- Status vocabularies ----

  predicate IsTerminal(status: IntentStatus)
  {
    status.Completed? || status.Cancelled? || status.Abandoned?
  }

  predicate ValidTransition(from: IntentStatus, to: IntentStatus)
  {
    && from != to
    && match from
       case Draft => to in {Active, Cancelled, Abandoned}
       case Active => to in {Blocked, Submitted, Cancelled, Abandoned}
       case Blocked => to in {Active, Submitted, Cancelled, Abandoned}
       case Submitted => to in {Completed, Blocked, Cancelled}
       case _ => false
  }

  predicate LiveWorktree(status: WorktreeStatus)
  {
    status.Provisioning? || status.Ready? || status.WorktreeActive? || status.Frozen?
  }

  predicate OpenSession(status: SessionStatus)
  {
    status.Starting? || status.SessionActive? || status.Stale?
  }
}
