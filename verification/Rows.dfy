/** What every command that succeeds for the first time writes, row by row and field by field, and what it
    answers. Everything that is not mentioned stays as it was: see Frames. */
module Rows {
  import opened Wrappers
  import opened Tables
  import opened Commands
  import opened Server
  import opened Frames
  import opened Work
  import opened Runs
  import opened Admission
  import Text
  import Scopes
  import Coordination
  import AgentSessions
  import Handoffs
  import HandoffProtocol
  import ContextPacks
  import RepositorySync
  import ProjectRepositories
  import Slugs
  import Projects
  import Log
  import History
  import Canonical
  import Idempotency

  // ---- Sessions ----

  /** A new session replaces the agent's open sessions on the same node, and no others. */
  ghost predicate SessionStarted(t: Tables, tt: Time, principal: Id, agentType: string, node: string, observesGit: bool, e: Effect)
  {
    var r, id := e.tables, t.nextId;
    && r.sessions.Keys == t.sessions.Keys + {id}
    && r.sessions[id] == Session(Agent(principal, agentType), node, SessionActive, observesGit, tt, tt, tt + 45)
    && (forall earlier :: earlier in t.sessions && earlier != id ==>
          var row := t.sessions[earlier];
          r.sessions[earlier] ==
            if row.actor == Agent(principal, agentType) && row.node == node && row.status in {Starting, SessionActive, Stale}
            then row.(status := SessionExpired) else row)
    && e.response == SessionRow(id, r.sessions[id])
  }

  /** A heartbeat gives the session 45 seconds and each of its active claims 60. */
  ghost predicate Beaten(t: Tables, tt: Time, session: Id, e: Effect)
    requires session in t.sessions
  {
    var r := e.tables;
    && r.sessions == t.sessions[session := t.sessions[session].(lastSeenAt := tt, expiresAt := tt + 45)]
    && r.claims.Keys == t.claims.Keys
    && (forall id :: id in t.claims ==>
          var row := t.claims[id];
          r.claims[id] == if row.session == session && row.status == ClaimActive then row.(renewedAt := tt, expiresAt := tt + 60) else row)
    && e.response == SessionRow(session, r.sessions[session])
  }

  ghost predicate SessionClosed(t: Tables, tt: Time, session: Id, e: Effect)
    requires session in t.sessions
  {
    var r := e.tables;
    && r.sessions == t.sessions[session := t.sessions[session].(status := Closed, lastSeenAt := tt)]
    && r.claims.Keys == t.claims.Keys
    && (forall id :: id in t.claims ==>
          var row := t.claims[id];
          r.claims[id] == if row.session == session && row.status == ClaimActive then row.(status := Released) else row)
    && e.response == NoContent
  }

  ghost predicate SponsorRevoked(t: Tables, tt: Time, sponsor: Id, e: Effect)
  {
    var r := e.tables;
    && r.sessions.Keys == t.sessions.Keys
    && (forall id :: id in t.sessions ==>
          var row := t.sessions[id];
          if row.actor.sponsor == sponsor && row.status in {Starting, SessionActive, Stale}
          then
            && r.sessions[id] == row.(status := Closed, lastSeenAt := r.sessions[id].lastSeenAt)
            && (row.startedAt <= tt <= row.expiresAt ==> r.sessions[id].lastSeenAt == tt)
            && (tt <= row.startedAt <= row.expiresAt ==> r.sessions[id].lastSeenAt == row.startedAt)
            && (row.startedAt <= row.expiresAt <= tt ==> r.sessions[id].lastSeenAt == row.expiresAt)
          else r.sessions[id] == row)
  }

  lemma SessionRows(t: Tables, tt: Time, c: Command, e: Effect)
    requires Fresh(t, tt, c, e) && MovesSessions(c)
    ensures c.StartSession? ==> SessionStarted(t, tt, c.principal, c.agentType, c.node, c.observesGit, e)
    ensures c.Heartbeat? ==> c.session in t.sessions && Beaten(t, tt, c.session, e)
    ensures c.CloseSession? ==> c.session in t.sessions && SessionClosed(t, tt, c.session, e)
    ensures c.RevokeSponsor? ==> SponsorRevoked(t, tt, c.sponsor, e)
  {
    match c
    case StartSession(principal, agentType, node, observesGit) => SessionStartRows(t, tt, principal, agentType, node, observesGit, e);
    case Heartbeat(principal, allowAll, session) => HeartbeatRows(t, tt, principal, allowAll, session, e);
    case CloseSession(principal, allowAll, session) => CloseRows(t, tt, principal, allowAll, session, e);
    case RevokeSponsor(sponsor) => RevocationRows(t, tt, sponsor, e);
  }

  lemma SessionStartRows(t: Tables, tt: Time, principal: Id, agentType: string, node: string, observesGit: bool, e: Effect)
    requires AgentSessions.SessionStartEffect(t, tt, principal, agentType, node, observesGit) == Ok(e)
    ensures SessionStarted(t, tt, principal, agentType, node, observesGit, e)
  {
  }

  lemma HeartbeatRows(t: Tables, tt: Time, principal: Id, allowAll: bool, session: Id, e: Effect)
    requires AgentSessions.HeartbeatEffect(t, tt, principal, allowAll, session) == Ok(e)
    ensures session in t.sessions && Beaten(t, tt, session, e)
  {
    hide AgentSessions.RenewalInOrder;
  }

  lemma CloseRows(t: Tables, tt: Time, principal: Id, allowAll: bool, session: Id, e: Effect)
    requires AgentSessions.CloseEffect(t, tt, principal, allowAll, session) == Ok(e)
    ensures session in t.sessions && SessionClosed(t, tt, session, e)
  {
  }

  lemma RevocationRows(t: Tables, tt: Time, sponsor: Id, e: Effect)
    requires e.tables == AgentSessions.RevokeSponsorEffect(t, tt, sponsor)
    ensures SponsorRevoked(t, tt, sponsor, e)
  {
  }

  // ---- Work ----

  /** work.start: an active intent of the session's agent, a claim of 60 seconds for every scope, and an
      event that names the claims, the overlaps, and an override exactly when the request is contended. */
  ghost predicate WorkStarted(t: Tables, tt: Time, request: Coordination.StartRequest, requested: seq<Scopes.Scope>, e: Effect)
    requires request.session in t.sessions && t.project.root.Some?
  {
    var r, intent, first, root := e.tables, t.nextId + 1, t.nextId + 2, t.project.root.value;
    && r.intents == t.intents[intent := Intent(request.title, request.baseRevision, t.sessions[request.session].actor, Active, None, 1, None)]
    && (forall id: Id :: id in r.claims <==> id in t.claims || first <= id < first + |requested|)
    && (forall id: Id :: id in t.claims ==> r.claims[id] == t.claims[id])
    && (forall i :: 0 <= i < |requested| ==>
          r.claims[first + i] == Claim(intent, request.session, root, requested[i], ClaimActive, tt, tt, tt + 60))
    && |r.events| == |t.events| + 1
    && StartEventTells(t, tt, requested, r.events[|t.events|], e)
  }

  ghost predicate StartEventTells(t: Tables, tt: Time, requested: seq<Scopes.Scope>, event: Event, e: Effect)
    requires t.project.root.Some?
  {
    var intent, first, root := t.nextId + 1, t.nextId + 2, t.project.root.value;
    && event.aggregate == IntentAggregate(intent)
    && event.payload.IntentStarted?
    && event.payload.claims == seq(|requested|, i requires 0 <= i < |requested| => first + i)
    && event.payload.overlapOverride == Contended(t, tt, root, requested)
    && (forall o :: o in event.payload.overlaps ==> Truthful(t, tt, root, requested, o))
    && (forall id: Id, i: nat :: i < |requested| && LiveOn(t, tt, root, id) && Scopes.Intersect(t.claims[id].scope, requested[i]) ==>
          Listed(event.payload.overlaps, id, requested[i]))
    && intent in e.tables.intents
    && e.response == StartedWork(intent, e.tables.intents[intent], event.payload.claims, event.payload.overlaps, event.sequence)
  }

  ghost predicate Listed(overlaps: seq<Overlap>, claim: Id, requested: Scopes.Scope)
  {
    exists o :: o in overlaps && o.claim == claim && o.requested == requested
  }

  lemma StartRows(t: Tables, tt: Time, c: Command, e: Effect)
    requires Fresh(t, tt, c, e) && c.StartWork? && Numbered(t) && ClaimsSound(t)
    ensures Scopes.NormalizeScopes(c.request.scopes).Ok? && c.request.session in t.sessions && t.project.root.Some?
    ensures WorkStarted(t, tt, c.request, Scopes.NormalizeScopes(c.request.scopes).value, e)
  {
    StartIsFresh(t, tt, c, e);
    hide Fresh, Scopes.NormalizeScopes, Scopes.NormalScope;
    StartedRows(t, tt, c.key, c.hash, c.request, Scopes.NormalizeScopes(c.request.scopes).value, e);
  }

  lemma StartedRows(t: Tables, tt: Time, key: string, hash: Hash, request: Coordination.StartRequest, requested: seq<Scopes.Scope>, e: Effect)
    requires Coordination.Started(t, tt, key, hash, Coordination.WithScopes(request, requested), e)
    requires Numbered(t) && ClaimsSound(t) && forall s :: s in requested ==> Scopes.NormalScope(s)
    ensures request.session in t.sessions && t.project.root.Some?
    ensures WorkStarted(t, tt, request, requested, e)
  {
    hide Scopes.NormalScope, StartEventTells, Coordination.ScopeOverlaps, Coordination.HasBlocking, Coordination.Consecutive, SameSessions, SameHandoffs,
      SamePacks, SameCanon;
    StartEventRow(t, tt, key, hash, request, requested, e);
  }

  lemma StartEventRow(t: Tables, tt: Time, key: string, hash: Hash, request: Coordination.StartRequest, requested: seq<Scopes.Scope>, e: Effect)
    requires Coordination.Started(t, tt, key, hash, Coordination.WithScopes(request, requested), e)
    requires Numbered(t) && ClaimsSound(t) && forall s :: s in requested ==> Scopes.NormalScope(s)
    ensures |e.tables.events| == |t.events| + 1
    ensures StartEventTells(t, tt, requested, e.tables.events[|t.events|], e)
  {
    hide Scopes.NormalScope, Scopes.Intersect, Coordination.ScopeOverlaps, Coordination.HasBlocking, Coordination.Reserved, Contended, Truthful, Listed, Reserve,
      Numbered, ClaimsSound, SameSessions, SameHandoffs, SamePacks, SameCanon;
    var command, root := CommandKey(WorkStart, key), t.project.root.value;
    var reserved := Reserve(t, command, hash);
    ReservingKeepsRows(t, command, hash, tt, root, requested);
    BlockedIfContended(reserved, tt, root, requested);
    var overlaps := Coordination.ScopeOverlaps(reserved, tt, root, requested);
    forall o | o in overlaps ensures Truthful(t, tt, root, requested, o) {
      OverlapsAreTruthful(reserved, tt, root, requested, o);
      TruthBeforeReserving(t, command, hash, tt, root, requested, o);
    }
    forall id: Id, i: nat | i < |requested| && LiveOn(t, tt, root, id) && Scopes.Intersect(t.claims[id].scope, requested[i])
      ensures Listed(overlaps, id, requested[i])
    {
      LiveAfterReserving(t, command, hash, tt, root, id);
      OverlapsAreComplete(reserved, tt, root, requested, id, i);
      ListedBecause(overlaps, id, requested[i]);
    }
  }

  lemma ListedBecause(overlaps: seq<Overlap>, id: Id, requested: Scopes.Scope)
    requires exists o :: o in overlaps && o.claim == id && o.requested == requested
    ensures Listed(overlaps, id, requested)
  {
  }

  lemma LiveAfterReserving(t: Tables, key: CommandKey, hash: Hash, tt: Time, repository: Id, id: Id)
    requires LiveOn(t, tt, repository, id)
    ensures LiveOn(Reserve(t, key, hash), tt, repository, id) && Reserve(t, key, hash).claims == t.claims
  {
    hide Reserve;
    ReserveFrame(t, key, hash);
  }

  lemma TruthBeforeReserving(t: Tables, key: CommandKey, hash: Hash, tt: Time, repository: Id, requested: seq<Scopes.Scope>, o: Overlap)
    requires Truthful(Reserve(t, key, hash), tt, repository, requested, o)
    ensures Truthful(t, tt, repository, requested, o)
  {
    hide Reserve, Scopes.Intersect;
    ReserveFrame(t, key, hash);
  }

  ghost predicate WorkspaceAttached(t: Tables, intent: Id, workspace: Coordination.WorkspaceInput, e: Effect)
    requires t.project.root.Some?
  {
    var r, id := e.tables, t.nextId + 1;
    && r.worktrees == t.worktrees[id := Worktree(intent, workspace.session, t.project.root.value, workspace.baseRevision, Ready, 1)]
    && LoggedAs(t, r, WorktreeAggregate(id), 1, WorktreeReady)
    && e.response == AttachedWorktree(id, r.worktrees[id], |r.events|)
  }

  /** One event behind the log, numbered next. */
  ghost predicate LoggedAs(t: Tables, r: Tables, aggregate: Aggregate, version: nat, payload: Payload)
  {
    && |r.events| == |t.events| + 1
    && r.events[..|t.events|] == t.events
    && r.events[|t.events|] == Event(|r.events|, aggregate, version, t.nextId, payload)
  }

  /** The row of an intent that moves: its status, its summary if one is given, the next version, and a
      completion time exactly when it is completed. */
  ghost predicate IntentMovedOn(t: Tables, tt: Time, intent: Id, change: Coordination.StatusInput, e: Effect)
    requires intent in t.intents
  {
    var r, row := e.tables, t.intents[intent];
    && r.intents == t.intents[intent := Intent(
         row.title, row.baseRevision, row.responsible, change.status,
         if change.summary != "" then Some(change.summary) else row.summary,
         row.version + 1,
         if change.status == Completed then Some(tt) else None)]
    && LoggedAs(t, r, IntentAggregate(intent), row.version + 1, IntentMoved(change.status))
    && e.response == MovedIntent(intent, r.intents[intent], |r.events|)
  }

  lemma WorkRows(t: Tables, tt: Time, c: Command, e: Effect)
    requires Fresh(t, tt, c, e) && Log.Dense(t) && (c.AttachWorkspace? || c.UpdateStatus?)
    ensures c.AttachWorkspace? ==> t.project.root.Some? && WorkspaceAttached(t, c.intent, c.workspace, e)
    ensures c.UpdateStatus? ==> c.intent in t.intents && IntentMovedOn(t, tt, c.intent, c.change, e)
  {
    match c
    case AttachWorkspace(_, _, intent, key, hash, workspace) => AttachRows(t, intent, key, hash, workspace, e);
    case UpdateStatus(_, _, intent, key, hash, change) => MoveRows(t, tt, intent, key, hash, change, e);
  }

  lemma AttachRows(t: Tables, intent: Id, key: string, hash: Hash, workspace: Coordination.WorkspaceInput, e: Effect)
    requires Coordination.Attached(t, intent, key, hash, workspace, e) && Log.Dense(t)
    ensures t.project.root.Some? && WorkspaceAttached(t, intent, workspace, e)
  {
    hide Coordination.HasLiveWorktree;
  }

  lemma MoveRows(t: Tables, tt: Time, intent: Id, key: string, hash: Hash, change: Coordination.StatusInput, e: Effect)
    requires Coordination.Moved(t, tt, intent, key, hash, change, e) && Log.Dense(t)
    ensures intent in t.intents && IntentMovedOn(t, tt, intent, change, e)
  {
    hide Coordination.FreezeWorktrees, Coordination.ArchiveWorktrees, Coordination.ReleaseIntent;
  }

  // ---- Handoffs ----

  /** An offer stores one open row for its hours, after expiring what has lapsed of the same intent. */
  ghost predicate OfferStored(t: Tables, tt: Time, intent: Id, offer: Handoffs.OfferInput, e: Effect)
    requires offer.session in t.sessions
  {
    var r, id := e.tables, t.nextId + 1;
    && r.handoffs.Keys == t.handoffs.Keys + {id}
    && r.handoffs[id] == Handoff(intent, offer.session, t.sessions[offer.session].actor, None, None, Offered, offer.summary, offer.records, 1,
                                 tt, None, tt + offer.hours * 3600)
    && (forall earlier :: earlier in t.handoffs && earlier != id ==>
          var row := t.handoffs[earlier];
          r.handoffs[earlier] ==
            if row.intent == intent && row.status == Offered && row.expiresAt <= tt
            then row.(status := HandoffExpired, respondedAt := Some(tt), version := row.version + 1) else row)
    && e.response == HandoffResult(id, r.handoffs[id], |r.events|)
  }

  /** An answer changes one row: its status, who accepted, when, and the version. */
  ghost predicate AnswerStored(t: Tables, tt: Time, handoff: Id, answer: Handoffs.AnswerInput, e: Effect)
    requires handoff in t.handoffs && answer.session in t.sessions
  {
    var r, row := e.tables, t.handoffs[handoff];
    && r.handoffs == t.handoffs[handoff :=
         match answer.answer
         case Accept => row.(status := Accepted, toSession := Some(answer.session), to := Some(t.sessions[answer.session].actor),
                             respondedAt := Some(tt), version := row.version + 1)
         case Withdraw => row.(status := Withdrawn, toSession := None, to := None, respondedAt := Some(tt), version := row.version + 1)]
    && LoggedAs(t, r, HandoffAggregate(handoff), row.version + 1, HandoffMoved(if answer.answer.Accept? then Accepted else Withdrawn))
    && e.response == HandoffResult(handoff, r.handoffs[handoff], |r.events|)
  }

  lemma AnswerRows(t: Tables, tt: Time, allowAll: bool, intent: Id, handoff: Id, key: string, hash: Hash, answer: Handoffs.AnswerInput, e: Effect)
    requires Handoffs.Answered(t, tt, allowAll, intent, handoff, key, hash, answer, e) && Log.Dense(t)
    ensures handoff in t.handoffs && answer.session in t.sessions && AnswerStored(t, tt, handoff, answer, e)
  {
    hide Handoffs.AnswerRefusal;
  }

  lemma OfferRows(t: Tables, tt: Time, intent: Id, key: string, hash: Hash, offer: Handoffs.OfferInput, e: Effect)
    requires Handoffs.OfferMade(t, tt, intent, key, hash, offer, e) && Log.Dense(t)
    requires HandoffProtocol.OneOfferEach(t.handoffs) && forall id: Id :: id in t.handoffs ==> id < t.nextId
    ensures offer.session in t.sessions && OfferStored(t, tt, intent, offer, e)
  {
    hide Handoffs.ExpireLapsed, Handoffs.LapsedOffer, Handoffs.HasOffer, Reserve;
    var command := CommandKey(HandoffOffer, key);
    ReserveFrame(t, command, hash);
    var reserved := Reserve(t, command, hash);
    var m := Handoffs.ExpireLapsed(reserved, tt, intent, t.nextId);
    ExpiredRows(reserved, m, tt, intent, t.nextId);
    assert |e.tables.events| == e.tables.counter;
  }

  lemma ExpiredRows(t: Tables, m: Tables, tt: Time, intent: Id, command: Id)
    requires Handoffs.Expired(t, tt, intent, command, m)
    requires HandoffProtocol.OneOfferEach(t.handoffs) && forall id: Id :: id in t.handoffs ==> id < t.nextId
    ensures m.handoffs.Keys == t.handoffs.Keys && |m.events| - |t.events| == m.counter - t.counter
    ensures forall id: Id :: id in t.handoffs ==>
      var row := t.handoffs[id];
      m.handoffs[id] ==
        if row.intent == intent && row.status == Offered && row.expiresAt <= tt
        then row.(status := HandoffExpired, respondedAt := Some(tt), version := row.version + 1) else row
  {
    hide Handoffs.LapsedOffer;
    forall id: Id | id in t.handoffs && t.handoffs[id].intent == intent && t.handoffs[id].status == Offered && t.handoffs[id].expiresAt <= tt
      ensures Handoffs.LapsedOffer(t, tt, intent, t.nextId) == Some(id)
    {
      assert HandoffProtocol.OpenOffer(t.handoffs, id) && Handoffs.Lapsed(t.handoffs[id], tt);
      var found := Handoffs.LapsedOffer(t, tt, intent, t.nextId);
      assert found.Some? ==> HandoffProtocol.OpenOffer(t.handoffs, found.value);
    }
  }

  // ---- Observations and packs ----

  ghost predicate ObservationStored(t: Tables, session: Id, input: AgentSessions.ObservationInput, e: Effect)
  {
    var r, at := e.tables, (session, input.worktree);
    && r.observations == t.observations[at := Observation(
         session, input.worktree, input.dirty, input.fingerprint, if input.head == "" then None else Some(input.head),
         if at in t.observations then t.observations[at].version + 1 else 1)]
    && e.response.Observed?
    && e.response.observation == r.observations[at]
    && (if e.response.noted.Some?
        then LoggedAs(t, r, ObservationAggregate(session, input.worktree), r.observations[at].version, ObservationNoted(e.response.noted.value))
        else r.events == t.events)
    && (e.response.noted == Some(DiffUpdated) <==>
          input.dirty && (at in t.observations && t.observations[at].dirty ==> t.observations[at].fingerprint != input.fingerprint))
  }

  lemma ObservationRows(t: Tables, session: Id, key: string, hash: Hash, input: AgentSessions.ObservationInput, e: Effect)
    requires AgentSessions.Noted(t, session, key, hash, input, e) && Log.Dense(t)
    ensures ObservationStored(t, session, input, e)
  {
  }

  ghost predicate PackStored(t: Tables, tt: Time, input: ContextPacks.CompileInput, e: Effect)
  {
    var r, id := e.tables, t.nextId + 1;
    && r.packs == t.packs[id := Pack(input.intent, |t.events|, input.gitRevision, tt, tt + input.ttlMinutes * 60)]
    && LoggedAs(t, r, PackAggregate(id), 1, ContextCompiled(|t.events|))
    && e.response == Compiled(id, r.packs[id], |r.events|)
  }

  lemma PackRows(t: Tables, tt: Time, key: string, hash: Hash, input: ContextPacks.CompileInput, e: Effect)
    requires ContextPacks.Packed(t, tt, key, hash, input, e) && Log.Dense(t)
    ensures PackStored(t, tt, input, e)
  {
  }

  // ---- Repositories ----

  function TextOf(value: Option<string>): string
  {
    if value.Some? then value.value else ""
  }

  /** Nothing to tell: the repository's state, its branch and, if it is primary, the project agree with the snapshot. */
  predicate UpToDate(t: Tables, repository: Id, snapshot: RepositorySync.Snapshot)
    requires repository in t.repositories
  {
    && repository in t.providers
    && var state := t.providers[repository];
    && state.status == Synced
    && (state.provider, state.fullName, state.branch, state.visibility) == (snapshot.provider, snapshot.fullName, snapshot.branch, snapshot.visibility)
    && TextOf(state.revision) == snapshot.revision
    && t.repositories[repository].branch == snapshot.branch
    && (t.project.root == Some(repository) ==> TextOf(t.project.revision) == snapshot.revision)
  }

  /** A snapshot becomes the state of the repository, its branch that of the repository, and its revision
      that of the project if the repository is primary; versions count changes, and a change is logged. */
  ghost predicate SnapshotStored(t: Tables, tt: Time, repository: Id, snapshot: RepositorySync.Snapshot, e: Effect)
    requires repository in t.repositories
  {
    var r, changed, row := e.tables, !UpToDate(t, repository, snapshot), t.repositories[repository];
    var version := if repository !in t.providers then 1 else t.providers[repository].version + if changed then 1 else 0;
    && r.providers == t.providers[repository := ProviderState(
         snapshot.provider, snapshot.fullName, Synced, snapshot.branch, Some(snapshot.revision), snapshot.visibility, tt, Some(tt), None, version)]
    && r.repositories == t.repositories[repository := row.(
         branch := snapshot.branch, version := row.version + if row.branch != snapshot.branch then 1 else 0)]
    && r.project.root == t.project.root
    && (if t.project.root == Some(repository)
        then
          && r.project.revision == Some(snapshot.revision)
          && r.project.version == t.project.version + if t.project.revision != Some(snapshot.revision) then 1 else 0
        else r.project.revision == t.project.revision && r.project.version == t.project.version)
    && (if changed then LoggedAs(t, r, ProviderAggregate(repository), version, CanonicalSynced(snapshot.revision)) else r.events == t.events)
    && e.response == Synchronised(r.providers[repository], changed)
  }

  lemma SnapshotRows(t: Tables, tt: Time, repository: Id, key: RepositorySync.SyncKey, snapshot: RepositorySync.Snapshot, e: Effect)
    requires RepositorySync.Applied(t, tt, repository, key, snapshot, e) && Log.Dense(t)
    ensures repository in t.repositories && SnapshotStored(t, tt, repository, snapshot, e)
  {
    SaysWhetherItChanges(t, repository, snapshot);
    hide RepositorySync.SnapshotChanges, UpToDate;
  }

  lemma SaysWhetherItChanges(t: Tables, repository: Id, snapshot: RepositorySync.Snapshot)
    requires repository in t.repositories
    ensures RepositorySync.SnapshotChanges(t, repository, snapshot) <==> !UpToDate(t, repository, snapshot)
  {
  }

  /** A failed attempt keeps what is known of the repository and says what went wrong; a failure that is
      already known is not logged again. */
  ghost predicate FailureStored(t: Tables, tt: Time, repository: Id, fullName: string, errorCode: string, e: Effect)
    requires repository in t.repositories
  {
    var r := e.tables;
    && repository in r.providers
    && r.providers == t.providers[repository := r.providers[repository]]
    && r.repositories == t.repositories
    && r.project == t.project.(sequence := r.project.sequence)
    && var state := r.providers[repository];
    && (state.provider, state.fullName, state.status, state.attemptAt, state.errorCode) == ("github", fullName, SyncFailed, tt, Some(errorCode))
    && (if repository in t.providers
        then
          var before := t.providers[repository];
          var known := (before.status, before.provider, before.fullName, TextOf(before.errorCode)) == (SyncFailed, "github", fullName, errorCode);
          && (state.branch, state.revision, state.visibility, state.successAt) == (before.branch, before.revision, before.visibility, before.successAt)
          && state.version == before.version + (if known then 0 else 1)
          && (if known then r.events == t.events else LoggedAs(t, r, ProviderAggregate(repository), state.version, SyncFailureNoted(errorCode)))
          && e.response == Synchronised(state, !known)
        else
          && state.branch == t.repositories[repository].branch
          && state.revision == (if t.project.root == Some(repository) then t.project.revision else None)
          && (state.visibility, state.successAt, state.version) == ("unknown", None, 1)
          && LoggedAs(t, r, ProviderAggregate(repository), 1, SyncFailureNoted(errorCode))
          && e.response == Synchronised(state, true))
  }

  lemma FailureRows(t: Tables, tt: Time, c: Command, e: Effect)
    requires Fresh(t, tt, c, e) && c.RecordFailure? && Log.Dense(t)
    ensures c.repository in t.repositories && FailureStored(t, tt, c.repository, c.fullName, c.errorCode, e)
  {
    RecordedRows(t, tt, c.repository, c.fullName, c.errorCode, e);
  }

  lemma RecordedRows(t: Tables, tt: Time, repository: Id, fullName: string, errorCode: string, e: Effect)
    requires RepositorySync.FailureStored(t, tt, repository, fullName, errorCode, e.tables) && Log.Dense(t)
    requires e.response == Synchronised(RepositorySync.FailedState(t, tt, repository, fullName, errorCode),
                                        RepositorySync.FailureChanges(RepositorySync.StateOf(t, repository), fullName, errorCode))
    ensures repository in t.repositories && FailureStored(t, tt, repository, fullName, errorCode, e)
  {
  }

  /** The repository in use that is the provider's is linked to it; if there is none, a new one is added
      under a slug that no repository has. It becomes primary if that is asked for or there is none yet,
      and then a project that switches takes over the revision of a synced state, or none. */
  ghost predicate RepositoryStored(t: Tables, attach: ProjectRepositories.AttachInput, provider: ProjectRepositories.Provider, e: Effect)
  {
    && e.response.RepositoryRow?
    && var r, id, row := e.tables, e.response.repository, e.response.repositoryRow;
    && r.repositories == t.repositories[id := row]
    && r.providers == t.providers
    && (row.github, row.purpose, row.required, row.branch, row.status) ==
       (Some(attach.github), attach.purpose, attach.required != Some(false), provider.branch, RepositoryActive)
    && (if Chosen(t, attach.github, provider, id)
        then (row.slug, row.remoteName, row.version) == (t.repositories[id].slug, t.repositories[id].remoteName, t.repositories[id].version + 1)
        else
          && (forall other: Id :: !Chosen(t, attach.github, provider, other))
          && id == t.nextId
          && (row.remoteName, row.version) == (Text.ToLower(provider.fullName), 1)
          && row.slug == Slugs.FreshSlug(provider.name, set other | other in t.repositories :: t.repositories[other].slug))
    && (var primary := attach.primary || t.project.root.None?;
        && r.project.root == (if primary then Some(id) else t.project.root)
        && r.project.version == t.project.version + (if primary then 1 else 0)
        && r.project.revision ==
           if !primary || t.project.root == Some(id) then t.project.revision
           else if id in t.providers && t.providers[id].status == Synced then t.providers[id].revision
           else None)
    && |r.events| == |t.events| + 1
    && r.events[|t.events|].aggregate == RepositoryAggregate(id)
    && r.events[|t.events|].version == row.version
    && r.events[|t.events|].payload == RepositoryAttached(r.project.root == Some(id))
  }

  lemma RepositoryRows(t: Tables, attach: ProjectRepositories.AttachInput, provider: ProjectRepositories.Provider, e: Effect)
    requires ProjectRepositories.RepositoryLinked(t, attach, provider, e) && Numbered(t) && Canonical.CanonSound(t)
    ensures RepositoryStored(t, attach, provider, e)
  {
    hide ProjectRepositories.LinkOrInsert, ProjectRepositories.LinkRefused, ProjectRepositories.FindExisting, ProjectRepositories.Matches,
      Slugs.FreshSlug, Text.ToLower, Chosen;
    OneIsChosen(t, attach.github, provider);
    ChosenIsThere(t, attach.github, provider);
    var (repository, linked) := ProjectRepositories.LinkOrInsert(t, attach, provider);
    LinkedWhere(t, attach, provider);
  }

  lemma ChosenIsThere(t: Tables, github: int, provider: ProjectRepositories.Provider)
    ensures forall id: Id :: Chosen(t, github, provider, id) ==> id in t.repositories
  {
    hide Text.ToLower;
  }

  lemma LinkedWhere(t: Tables, attach: ProjectRepositories.AttachInput, provider: ProjectRepositories.Provider)
    ensures var found := ProjectRepositories.FindExisting(t, attach.github, provider, t.nextId);
      ProjectRepositories.LinkOrInsert(t, attach, provider).0 == if found.Some? then found.value else t.nextId
  {
    hide ProjectRepositories.FindExisting, ProjectRepositories.NewRow, ProjectRepositories.LinkRow;
  }

  // ---- Every command ----

  ghost predicate Written(t: Tables, tt: Time, c: Command, e: Effect)
  {
    match c
    case StartSession(principal, agentType, node, observesGit) => SessionStarted(t, tt, principal, agentType, node, observesGit, e)
    case Heartbeat(_, _, session) => session in t.sessions && Beaten(t, tt, session, e)
    case CloseSession(_, _, session) => session in t.sessions && SessionClosed(t, tt, session, e)
    case RevokeSponsor(sponsor) => SponsorRevoked(t, tt, sponsor, e)
    case StartWork(_, _, _, _, request) =>
      && Scopes.NormalizeScopes(request.scopes).Ok? && request.session in t.sessions && t.project.root.Some?
      && WorkStarted(t, tt, request, Scopes.NormalizeScopes(request.scopes).value, e)
    case AttachWorkspace(_, _, intent, _, _, workspace) => t.project.root.Some? && WorkspaceAttached(t, intent, workspace, e)
    case UpdateStatus(_, _, intent, _, _, change) => intent in t.intents && IntentMovedOn(t, tt, intent, change, e)
    case OfferHandoff(_, _, intent, _, _, _, offer) => offer.session in t.sessions && OfferStored(t, tt, intent, offer, e)
    case AnswerHandoff(_, _, _, handoff, _, _, answer) =>
      handoff in t.handoffs && answer.session in t.sessions && AnswerStored(t, tt, handoff, answer, e)
    case Observe(_, session, _, _, observation) => ObservationStored(t, session, observation, e)
    case CompileContext(_, _, _, _, _, compile) => PackStored(t, tt, compile, e)
    case ApplySnapshot(repository, _, snapshot) => repository in t.repositories && SnapshotStored(t, tt, repository, snapshot, e)
    case RecordFailure(repository, fullName, errorCode) => repository in t.repositories && FailureStored(t, tt, repository, fullName, errorCode, e)
    case AttachRepository(attach, provider) => provider.Some? && RepositoryStored(t, attach, provider.value, e)
  }

  lemma FreshWrites(t: Tables, tt: Time, c: Command, e: Effect)
    requires Fresh(t, tt, c, e) && Invariant(t)
    ensures Written(t, tt, c, e)
  {
    hide WorktreesSound, OneWorktreeEach, IntentsSound, Log.Faithful, Log.Versioned, History.PacksPlaced, HandoffProtocol.RowsSound, Idempotency.AllComplete,
      HandoffProtocol.OneOfferEach, Scopes.NormalizeScopes;
    if MovesSessions(c) {
      SessionRows(t, tt, c, e);
      hide Fresh;
    } else if c.StartWork? {
      StartRows(t, tt, c, e);
      hide Fresh;
    } else if c.AttachWorkspace? || c.UpdateStatus? {
      WorkRows(t, tt, c, e);
      hide Fresh;
    } else if c.RecordFailure? {
      FailureRows(t, tt, c, e);
      hide Fresh;
    } else {
      OtherRows(t, tt, c, e);
      hide Fresh;
    }
  }

  lemma OtherRows(t: Tables, tt: Time, c: Command, e: Effect)
    requires Fresh(t, tt, c, e) && Invariant(t)
    requires c.OfferHandoff? || c.AnswerHandoff? || c.Observe? || c.CompileContext? || c.ApplySnapshot? || c.AttachRepository?
    ensures Written(t, tt, c, e)
  {
    hide WorkSound, Log.Dense, Log.Faithful, Log.Versioned, History.PacksPlaced, HandoffProtocol.RowsSound, HandoffProtocol.OneOfferEach, Canonical.CanonSound,
      Idempotency.AllComplete, Handoffs.OfferMade, Handoffs.Answered, AgentSessions.Noted, ContextPacks.Packed, RepositorySync.Applied,
      ProjectRepositories.RepositoryLinked, OfferStored, AnswerStored, ObservationStored, PackStored, SnapshotStored, RepositoryStored;
    match c
    case OfferHandoff(_, _, intent, key, hash, _, offer) => OfferRows(t, tt, intent, key, hash, offer, e);
    case AnswerHandoff(_, allowAll, intent, handoff, key, hash, answer) => AnswerRows(t, tt, allowAll, intent, handoff, key, hash, answer, e);
    case Observe(_, session, key, hash, observation) => ObservationRows(t, session, key, hash, observation, e);
    case CompileContext(_, _, _, key, hash, compile) => PackRows(t, tt, key, hash, compile, e);
    case ApplySnapshot(repository, syncKey, snapshot) => SnapshotRows(t, tt, repository, syncKey, snapshot, e);
    case AttachRepository(attach, provider) => RepositoryRows(t, attach, provider.value, e);
  }

  /** In every reachable state, a command that succeeds for the first time writes these rows and answers
      with them, leaves its answer under its key, and touches no other table. */
  lemma SuccessWrites(revision: Option<string>, root: Option<Projects.RootInput>, steps: seq<Step>, n: nat, tt: Time, c: Command)
    requires n <= |steps|
    requires Exec(At(revision, root, steps, n), tt, c).Ok? && !Exec(At(revision, root, steps, n), tt, c).value.replayed
    ensures var t, e := At(revision, root, steps, n), Exec(At(revision, root, steps, n), tt, c).value;
      && Written(t, tt, c, e)
      && Framed(t, c, e.tables)
      && (KeyOf(c).Some? ==>
            && KeyOf(c).value in e.tables.commands
            && e.tables.commands[KeyOf(c).value].hash == HashOf(c)
            && e.tables.commands[KeyOf(c).value].body == Some(e.response))
  {
    hide At, Exec, Fresh, Written, Framed, Invariant;
    var t := At(revision, root, steps, n);
    ReachableIsSound(revision, root, steps, n);
    Outcomes(t, tt, c);
    FreshWrites(t, tt, c, Exec(t, tt, c).value);
    FreshIsFramed(t, tt, c, Exec(t, tt, c).value);
    Idempotency.FirstSuccess(t, tt, c, Exec(t, tt, c).value);
  }
}
