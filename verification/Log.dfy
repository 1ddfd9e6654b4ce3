/** The event log: dense, one outbox row per event, and a replay of it gives the tables back. */
module Log {
  import opened Wrappers
  import opened Scopes
  import opened Tables
  import opened Commands
  import opened Server
  import opened Frames
  import opened Work
  import Coordination
  import AgentSessions
  import Handoffs
  import ContextPacks
  import RepositorySync
  import ProjectRepositories

  // ---- Dense sequences ----

  /** Project sequences are exactly 1 to n, and the outbox holds one row per event, in order. */
  ghost predicate Dense(t: Tables)
  {
    && t.counter == t.project.sequence == |t.events| == |t.outbox|
    && (forall i :: 0 <= i < |t.events| ==> t.events[i].sequence == i + 1)
    && (forall i :: 0 <= i < |t.outbox| ==> t.outbox[i] == i + 1)
  }

  lemma DenseAfterLog(t: Tables, r: Tables, aggregate: Aggregate, version: nat, command: Id, payload: Payload)
    requires Dense(t) && Logs(t, r, aggregate, version, command, payload)
    ensures Dense(r)
  {
  }

  // ---- ReplayLog ----

  datatype ProviderView = SyncedAt(revision: string) | FailedWith(code: string)

  /** What the log alone determines: primary repository and revision, and every status with its version. */
  datatype Projection = Projection(
    root: Option<Id>, revision: string,
    intents: map<Id, (IntentStatus, nat)>,
    handoffs: map<Id, (HandoffStatus, nat)>,
    providers: map<Id, (ProviderView, nat)>)

  function VersionIn<T>(rows: map<Id, (T, nat)>, id: Id): nat
  {
    if id in rows then rows[id].1 else 0
  }

  /** The first event must create the project; its payload carries primary repository and revision. */
  function Genesis(e: Event): Option<Projection>
  {
    match (e.aggregate, e.payload)
    case (ProjectAggregate, ProjectCreated(root, revision)) =>
      if e.version == 1 then Some(Projection(root, RepositorySync.StringValue(revision), map[], map[], map[])) else None
    case _ => None
  }

  /** One event applied to a projection; None when the event cannot follow what came before. */
  function ReplayOne(p: Projection, e: Event): Option<Projection>
  {
    match (e.aggregate, e.payload)
    case (IntentAggregate(id), IntentStarted(_, _, _)) =>
      if id !in p.intents && e.version == 1 then Some(p.(intents := p.intents[id := (Active, 1)])) else None
    case (IntentAggregate(id), IntentMoved(status)) =>
      if id in p.intents && e.version == p.intents[id].1 + 1 then Some(p.(intents := p.intents[id := (status, e.version)])) else None
    case (HandoffAggregate(id), HandoffOffered) =>
      if id !in p.handoffs && e.version == 1 then Some(p.(handoffs := p.handoffs[id := (Offered, 1)])) else None
    case (HandoffAggregate(id), HandoffMoved(status)) =>
      if id in p.handoffs && e.version == p.handoffs[id].1 + 1 then Some(p.(handoffs := p.handoffs[id := (status, e.version)])) else None
    case (ProviderAggregate(id), CanonicalSynced(revision)) =>
      if e.version == VersionIn(p.providers, id) + 1
      then Some(p.(providers := p.providers[id := (SyncedAt(revision), e.version)],
                   revision := if p.root == Some(id) then revision else p.revision))
      else None
    case (ProviderAggregate(id), SyncFailureNoted(code)) =>
      if e.version == VersionIn(p.providers, id) + 1 then Some(p.(providers := p.providers[id := (FailedWith(code), e.version)])) else None
    case (RepositoryAggregate(id), RepositoryAttached(primary)) =>
      Some(if primary && p.root != Some(id) then p.(root := Some(id), revision := RevisionIn(p, id)) else p)
    case (WorktreeAggregate(_), WorktreeReady) => Some(p)
    case (ObservationAggregate(_, _), ObservationNoted(_)) => Some(p)
    case (PackAggregate(_), ContextCompiled(_)) => Some(p)
    case _ => None
  }

  function RevisionIn(p: Projection, repository: Id): string
  {
    if repository in p.providers && p.providers[repository].0.SyncedAt? then p.providers[repository].0.revision else ""
  }

  function ReplayLog(events: seq<Event>): Option<Projection>
  {
    if events == [] then None
    else if |events| == 1 then Genesis(events[0])
    else
      var before := ReplayLog(events[..|events| - 1]);
      if before.None? then None else ReplayOne(before.value, events[|events| - 1])
  }

  function ViewOf(state: ProviderState): ProviderView
  {
    match state.status
    case Synced => SyncedAt(RepositorySync.StringValue(state.revision))
    case SyncFailed => FailedWith(RepositorySync.StringValue(state.errorCode))
  }

  function IntentsView(intents: map<Id, Intent>): map<Id, (IntentStatus, nat)>
  {
    map id | id in intents :: (intents[id].status, intents[id].version)
  }

  function HandoffsView(handoffs: map<Id, Handoff>): map<Id, (HandoffStatus, nat)>
  {
    map id | id in handoffs :: (handoffs[id].status, handoffs[id].version)
  }

  function ProvidersView(providers: map<Id, ProviderState>): map<Id, (ProviderView, nat)>
  {
    map id | id in providers :: (ViewOf(providers[id]), providers[id].version)
  }

  /** The same facts read off the tables. */
  function Projected(t: Tables): Projection
  {
    Projection(t.project.root, RepositorySync.StringValue(t.project.revision),
               IntentsView(t.intents), HandoffsView(t.handoffs), ProvidersView(t.providers))
  }

  lemma ViewOfOneIntent(intents: map<Id, Intent>, id: Id, row: Intent)
    ensures IntentsView(intents[id := row]) == IntentsView(intents)[id := (row.status, row.version)]
  {
  }

  lemma ViewOfOneHandoff(handoffs: map<Id, Handoff>, id: Id, row: Handoff)
    ensures HandoffsView(handoffs[id := row]) == HandoffsView(handoffs)[id := (row.status, row.version)]
  {
  }

  lemma ViewOfOneProvider(providers: map<Id, ProviderState>, id: Id, state: ProviderState)
    ensures ProvidersView(providers[id := state]) == ProvidersView(providers)[id := (ViewOf(state), state.version)]
  {
  }

  /** Folding the log rebuilds the tables. */
  ghost predicate Faithful(t: Tables)
  {
    ReplayLog(t.events) == Some(Projected(t))
  }

  lemma ReplaySnoc(events: seq<Event>, e: Event)
    requires ReplayLog(events).Some?
    ensures ReplayLog(events + [e]) == ReplayOne(ReplayLog(events).value, e)
  {
    assert (events + [e])[..|events + [e]| - 1] == events;
  }

  // ---- Versions ----

  /** The version an aggregate has reached, 0 before its first row. */
  function Current(t: Tables, a: Aggregate): nat
  {
    match a
    case ProjectAggregate => 1
    case IntentAggregate(id) => if id in t.intents then t.intents[id].version else 0
    case WorktreeAggregate(id) => if id in t.worktrees then 1 else 0
    case HandoffAggregate(id) => if id in t.handoffs then t.handoffs[id].version else 0
    case ObservationAggregate(session, worktree) =>
      if (session, worktree) in t.observations then t.observations[(session, worktree)].version else 0
    case ProviderAggregate(id) => if id in t.providers then t.providers[id].version else 0
    case RepositoryAggregate(id) => if id in t.repositories then t.repositories[id].version else 0
    case PackAggregate(id) => if id in t.packs then 1 else 0
  }

  ghost predicate Above(events: seq<Event>, a: Aggregate, version: nat)
  {
    forall i :: 0 <= i < |events| && events[i].aggregate == a ==> events[i].version < version
  }

  /** Within one aggregate the versions in the log strictly increase and never pass the row's own. */
  ghost predicate Versioned(t: Tables)
  {
    && (forall i :: 0 <= i < |t.events| ==> t.events[i].version <= Current(t, t.events[i].aggregate))
    && (forall i, j :: 0 <= i < j < |t.events| && t.events[i].aggregate == t.events[j].aggregate ==> t.events[i].version < t.events[j].version)
  }

  ghost predicate NoRegress(t: Tables, r: Tables)
  {
    forall i :: 0 <= i < |t.events| ==> Current(t, t.events[i].aggregate) <= Current(r, t.events[i].aggregate)
  }

  /** One more event: it must carry the next version of its aggregate and fit the replay. */
  lemma OneMore(t: Tables, r: Tables, a: Aggregate, version: nat, command: Id, payload: Payload)
    requires LogSound(t) && Logs(t, r, a, version, command, payload)
    requires Above(t.events, a, version) && version <= Current(r, a) && NoRegress(t, r)
    ensures Dense(r) && Versioned(r)
    ensures ReplayLog(r.events) == ReplayOne(Projected(t), Event(t.counter + 1, a, version, command, payload))
  {
    hide ReplayLog, Projected, ReplayOne, Current;
    DenseAfterLog(t, r, a, version, command, payload);
    ReplaySnoc(t.events, Event(t.counter + 1, a, version, command, payload));
  }

  lemma NoMore(t: Tables, r: Tables)
    requires LogSound(t) && Quiet(t, r) && NoRegress(t, r)
    ensures Dense(r) && Versioned(r) && ReplayLog(r.events) == Some(Projected(t))
  {
    hide Current, ReplayLog, Projected;
  }

  // ---- Every command keeps the log dense and faithful ----

  ghost predicate LogSound(t: Tables)
  {
    Dense(t) && Faithful(t) && Versioned(t)
  }

  lemma ByStart(t: Tables, tt: Time, key: string, hash: Hash, input: Coordination.StartInput, e: Effect)
    requires Coordination.Started(t, tt, key, hash, input, e) && t.nextId + 1 !in t.intents && LogSound(t)
    ensures LogSound(e.tables)
  {
    hide Dense, Coordination.ScopeOverlaps, Coordination.HasBlocking, Coordination.Consecutive, Coordination.Reserved, ReplayLog;
    ViewOfOneIntent(t.intents, t.nextId + 1, e.tables.intents[t.nextId + 1]);
    var overlaps := Coordination.ScopeOverlaps(Reserve(t, CommandKey(WorkStart, key), hash), tt, t.project.root.value, input.scopes);
    var payload := IntentStarted(Coordination.Consecutive(t.nextId + 2, |input.scopes|), overlaps, Coordination.HasBlocking(overlaps));
    OneMore(t, e.tables, IntentAggregate(t.nextId + 1), 1, t.nextId, payload);
  }

  lemma ByAttach(t: Tables, intent: Id, key: string, hash: Hash, input: Coordination.WorkspaceInput, e: Effect)
    requires Coordination.Attached(t, intent, key, hash, input, e) && t.nextId + 1 !in t.worktrees && LogSound(t)
    ensures LogSound(e.tables)
  {
    hide Dense, ReplayLog;
    OneMore(t, e.tables, WorktreeAggregate(t.nextId + 1), 1, t.nextId, WorktreeReady);
  }

  lemma ByMove(t: Tables, tt: Time, intent: Id, key: string, hash: Hash, input: Coordination.StatusInput, e: Effect)
    requires Coordination.Moved(t, tt, intent, key, hash, input, e) && LogSound(t)
    ensures LogSound(e.tables)
  {
    hide Dense, ReplayLog;
    ViewOfOneIntent(t.intents, intent, e.tables.intents[intent]);
    OneMore(t, e.tables, IntentAggregate(intent), t.intents[intent].version + 1, t.nextId, IntentMoved(input.status));
  }

  lemma ByAnswer(t: Tables, tt: Time, allowAll: bool, intent: Id, handoff: Id, key: string, hash: Hash, input: Handoffs.AnswerInput, e: Effect)
    requires Handoffs.Answered(t, tt, allowAll, intent, handoff, key, hash, input, e) && LogSound(t)
    ensures LogSound(e.tables)
  {
    hide Dense, ReplayLog;
    ViewOfOneHandoff(t.handoffs, handoff, e.tables.handoffs[handoff]);
    var row := e.tables.handoffs[handoff];
    OneMore(t, e.tables, HandoffAggregate(handoff), row.version, t.nextId, HandoffMoved(row.status));
  }

  lemma ByObserve(t: Tables, session: Id, key: string, hash: Hash, input: AgentSessions.ObservationInput, e: Effect)
    requires AgentSessions.Noted(t, session, key, hash, input, e) && LogSound(t)
    ensures LogSound(e.tables)
  {
    hide Dense, ReplayLog, AgentSessions.Noteworthy;
    var previous := AgentSessions.PreviousObservation(t, session, input.worktree);
    var kind := AgentSessions.Noteworthy(previous, input);
    if kind.Some? {
      var version := AgentSessions.ObservationRow(previous, session, input).version;
      OneMore(t, e.tables, ObservationAggregate(session, input.worktree), version, t.nextId, ObservationNoted(kind.value));
    } else {
      NoMore(t, e.tables);
    }
  }

  lemma ByCompile(t: Tables, tt: Time, key: string, hash: Hash, input: ContextPacks.CompileInput, e: Effect)
    requires ContextPacks.Packed(t, tt, key, hash, input, e) && t.nextId + 1 !in t.packs && LogSound(t)
    ensures LogSound(e.tables)
  {
    hide Dense, ReplayLog;
    OneMore(t, e.tables, PackAggregate(t.nextId + 1), 1, t.nextId, ContextCompiled(t.project.sequence));
  }

  lemma ByExpiry(t: Tables, tt: Time, intent: Id, command: Id, r: Tables)
    requires Handoffs.Expired(t, tt, intent, command, r) && LogSound(t)
    ensures LogSound(r)
  {
    hide Dense, ReplayLog, Handoffs.LapsedOffer;
    var lapsed := Handoffs.LapsedOffer(t, tt, intent, t.nextId);
    if lapsed.Some? {
      var row := Handoffs.ExpireRow(t.handoffs[lapsed.value], tt);
      ViewOfOneHandoff(t.handoffs, lapsed.value, row);
      OneMore(t, r, HandoffAggregate(lapsed.value), row.version, command, HandoffMoved(HandoffExpired));
    } else {
      NoMore(t, r);
    }
  }

  lemma ByInsertedOffer(
    m: Tables, tt: Time, command: CommandKey, commandId: Id, intent: Id, actor: Agent, input: Handoffs.OfferInput, e: Effect)
    requires Handoffs.OfferedOn(m, tt, command, commandId, intent, actor, input, e) && m.nextId !in m.handoffs && LogSound(m)
    ensures LogSound(e.tables)
  {
    hide Dense, ReplayLog;
    ViewOfOneHandoff(m.handoffs, m.nextId, e.tables.handoffs[m.nextId]);
    OneMore(m, e.tables, HandoffAggregate(m.nextId), 1, commandId, HandoffOffered);
  }

  lemma ByOffer(t: Tables, tt: Time, intent: Id, key: string, hash: Hash, input: Handoffs.OfferInput, e: Effect)
    requires Handoffs.OfferMade(t, tt, intent, key, hash, input, e) && LogSound(t)
    requires forall id: Id :: id in t.handoffs ==> id < t.nextId
    ensures LogSound(e.tables)
  {
    hide Dense, ReplayLog, Handoffs.HasOffer, Handoffs.ExpireLapsed, Handoffs.LapsedOffer, Reserve;
    var command := CommandKey(HandoffOffer, key);
    ReserveFrame(t, command, hash);
    var reserved := Reserve(t, command, hash);
    NoMore(t, reserved);
    var m := Handoffs.ExpireLapsed(reserved, tt, intent, t.nextId);
    ByExpiry(reserved, tt, intent, t.nextId, m);
    ByInsertedOffer(m, tt, command, t.nextId, intent, t.sessions[input.session].actor, input, e);
  }

  lemma BySnapshot(t: Tables, tt: Time, repository: Id, snapshot: RepositorySync.Snapshot, command: Id, r: Tables)
    requires repository in t.repositories && RepositorySync.Stored(t, tt, repository, snapshot, command, r) && LogSound(t)
    ensures LogSound(r)
  {
    SnapshotVersion(t, tt, repository, snapshot, command, r);
    hide Dense, Versioned, NoRegress, Current, ReplayLog, Above;
    ViewOfOneProvider(t.providers, repository, r.providers[repository]);
    if RepositorySync.SnapshotChanges(t, repository, snapshot) {
      OneMore(t, r, ProviderAggregate(repository), r.providers[repository].version, command, CanonicalSynced(snapshot.revision));
    } else {
      NoMore(t, r);
      assert ProvidersView(r.providers) == ProvidersView(t.providers);
    }
  }

  lemma SnapshotVersion(t: Tables, tt: Time, repository: Id, snapshot: RepositorySync.Snapshot, command: Id, r: Tables)
    requires repository in t.repositories && RepositorySync.Stored(t, tt, repository, snapshot, command, r) && Versioned(t)
    ensures NoRegress(t, r) && repository in r.providers && r.providers[repository].version <= Current(r, ProviderAggregate(repository))
    ensures RepositorySync.SnapshotChanges(t, repository, snapshot) ==>
      Above(t.events, ProviderAggregate(repository), r.providers[repository].version)
  {
    hide RepositorySync.SnapshotChanges, RepositorySync.CanonicalProject;
  }

  lemma ByFailure(t: Tables, tt: Time, repository: Id, fullName: string, errorCode: string, r: Tables)
    requires RepositorySync.FailureStored(t, tt, repository, fullName, errorCode, r) && LogSound(t)
    ensures LogSound(r)
  {
    hide Dense, Versioned, NoRegress, Current, ReplayLog, Above, RepositorySync.FailedState, RepositorySync.FailureChanges, ViewOf,
      SameSessions, SamePacks;
    FailureVersion(t, tt, repository, fullName, errorCode, r);
    FailureView(t, tt, repository, fullName, errorCode);
    ViewOfOneProvider(t.providers, repository, r.providers[repository]);
    if RepositorySync.FailureChanges(RepositorySync.StateOf(t, repository), fullName, errorCode) {
      OneMore(t, r, ProviderAggregate(repository), r.providers[repository].version, t.nextId, SyncFailureNoted(errorCode));
    } else {
      NoMore(t, r);
      assert ProvidersView(r.providers) == ProvidersView(t.providers);
    }
  }

  lemma FailureView(t: Tables, tt: Time, repository: Id, fullName: string, errorCode: string)
    requires repository in t.repositories
    ensures var state, previous := RepositorySync.FailedState(t, tt, repository, fullName, errorCode), RepositorySync.StateOf(t, repository);
      && ViewOf(state) == FailedWith(errorCode)
      && (RepositorySync.FailureChanges(previous, fullName, errorCode) ==> state.version == VersionIn(ProvidersView(t.providers), repository) + 1)
      && (!RepositorySync.FailureChanges(previous, fullName, errorCode) ==>
            previous.Some? && ViewOf(previous.value) == FailedWith(errorCode) && state.version == previous.value.version)
  {
  }

  lemma FailureVersion(t: Tables, tt: Time, repository: Id, fullName: string, errorCode: string, r: Tables)
    requires RepositorySync.FailureStored(t, tt, repository, fullName, errorCode, r) && Versioned(t)
    ensures NoRegress(t, r) && repository in r.providers && r.providers[repository].version <= Current(r, ProviderAggregate(repository))
    ensures RepositorySync.FailureChanges(RepositorySync.StateOf(t, repository), fullName, errorCode) ==>
      Above(t.events, ProviderAggregate(repository), r.providers[repository].version)
  {
    hide RepositorySync.FailureChanges;
  }

  lemma ByPlacing(t: Tables, repository: Id, primary: bool, e: Effect)
    requires repository in t.repositories && ProjectRepositories.Placed(t, repository, primary, e) && LogSound(t)
    requires Above(t.events, RepositoryAggregate(repository), t.repositories[repository].version)
    ensures LogSound(e.tables)
  {
    hide Dense, ReplayLog, Above, Versioned;
    var version, payload := t.repositories[repository].version, RepositoryAttached(primary || t.project.root == Some(repository));
    OneMore(t, e.tables, RepositoryAggregate(repository), version, t.nextId, payload);
  }

  lemma ByLinking(t: Tables, input: ProjectRepositories.AttachInput, provider: ProjectRepositories.Provider, e: Effect)
    requires ProjectRepositories.RepositoryLinked(t, input, provider, e) && t.nextId !in t.repositories && LogSound(t)
    ensures LogSound(e.tables)
  {
    hide ReplayLog, Dense, ProjectRepositories.LinkOrInsert, ProjectRepositories.Linked, ProjectRepositories.Placed;
    var (repository, linked) := ProjectRepositories.LinkOrInsert(t, input, provider);
    LinkedVersion(t, input, provider, repository, linked);
    NoMore(t, linked);
    ByPlacing(linked, repository, input.primary || t.project.root.None?, e);
  }

  lemma LinkedVersion(
    t: Tables, input: ProjectRepositories.AttachInput, provider: ProjectRepositories.Provider, repository: Id, r: Tables)
    requires ProjectRepositories.Linked(t, input, provider, repository, r) && t.nextId !in t.repositories && Versioned(t)
    ensures NoRegress(t, r) && Quiet(t, r) && Projected(r) == Projected(t)
    ensures Above(r.events, RepositoryAggregate(repository), r.repositories[repository].version)
  {
    hide ProjectRepositories.FindExisting, ProjectRepositories.Matches, ProjectRepositories.NewRow, RepositorySync.StringValue;
    ProjectRepositories.NewRowIsFirst(t, input, provider);
  }

  lemma LogKept(t: Tables, tt: Time, c: Command, e: Effect)
    requires Fresh(t, tt, c, e) && Numbered(t) && LogSound(t)
    ensures LogSound(e.tables)
  {
    FreshIsFramed(t, tt, c, e);
    hide Fresh, LogSound;
    if MovesSessions(c) { BySession(t, tt, c, e); }
    else if MovesCanon(c) { ByCanon(t, tt, c, e); }
    else { ByWork(t, tt, c, e); }
  }

  lemma ByWork(t: Tables, tt: Time, c: Command, e: Effect)
    requires Fresh(t, tt, c, e) && Numbered(t) && LogSound(t) && !MovesSessions(c) && !MovesCanon(c)
    ensures LogSound(e.tables)
  {
    hide LogSound, NormalizeScopes, NormalScope, Coordination.Started, Coordination.Moved, Coordination.Attached, Handoffs.OfferMade,
      Handoffs.Answered, AgentSessions.Noted, ContextPacks.Packed;
    match c
    case StartWork(_, _, key, hash, request) =>
      ByStart(t, tt, key, hash, Coordination.WithScopes(request, NormalizeScopes(request.scopes).value), e);
    case AttachWorkspace(_, _, intent, key, hash, workspace) => ByAttach(t, intent, key, hash, workspace, e);
    case UpdateStatus(_, _, intent, key, hash, change) => ByMove(t, tt, intent, key, hash, change, e);
    case OfferHandoff(_, _, intent, key, hash, _, offer) => ByOffer(t, tt, intent, key, hash, offer, e);
    case AnswerHandoff(_, allowAll, intent, handoff, key, hash, answer) => ByAnswer(t, tt, allowAll, intent, handoff, key, hash, answer, e);
    case Observe(_, session, key, hash, observation) => ByObserve(t, session, key, hash, observation, e);
    case CompileContext(_, _, _, key, hash, compile) => ByCompile(t, tt, key, hash, compile, e);
  }

  lemma ByCanon(t: Tables, tt: Time, c: Command, e: Effect)
    requires Fresh(t, tt, c, e) && Numbered(t) && LogSound(t) && MovesCanon(c)
    ensures LogSound(e.tables)
  {
    hide LogSound, RepositorySync.Stored, RepositorySync.FailureStored, ProjectRepositories.RepositoryLinked;
    match c
    case ApplySnapshot(repository, syncKey, snapshot) => BySnapshot(t, tt, repository, snapshot, t.nextId, e.tables);
    case RecordFailure(repository, fullName, errorCode) => ByFailure(t, tt, repository, fullName, errorCode, e.tables);
    case AttachRepository(attach, provider) => ByLinking(t, attach, provider.value, e);
  }

  lemma BySession(t: Tables, tt: Time, c: Command, e: Effect)
    requires Framed(t, c, e.tables) && MovesSessions(c) && LogSound(t)
    ensures LogSound(e.tables)
  {
    hide ReplayLog;
  }
}
