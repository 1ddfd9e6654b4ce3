/** What every command does to every table, and which tables it leaves alone. */
module Frames {
  import opened Wrappers
  import opened Scopes
  import opened Tables
  import opened Commands
  import opened Server
  import Coordination
  import AgentSessions
  import Handoffs
  import ContextPacks
  import RepositorySync
  import ProjectRepositories

  /** The idempotency record a command works under: only coordination commands have one. */
  function KeyOf(c: Command): Option<CommandKey>
  {
    match c
    case StartWork(_, _, key, _, _) => Some(CommandKey(WorkStart, key))
    case AttachWorkspace(_, _, _, key, _, _) => Some(CommandKey(WorkspaceAttach, key))
    case UpdateStatus(_, _, _, key, _, _) => Some(CommandKey(IntentStatusChange, key))
    case OfferHandoff(_, _, _, key, _, _, _) => Some(CommandKey(HandoffOffer, key))
    case AnswerHandoff(_, _, _, _, key, _, _) => Some(CommandKey(HandoffStatusChange, key))
    case Observe(_, _, key, _, _) => Some(CommandKey(RepositoryObserve, key))
    case CompileContext(_, _, _, key, _, _) => Some(CommandKey(ContextCompile, key))
    case ApplySnapshot(_, syncKey, _) => if syncKey.Manual? then Some(CommandKey(CommandType.RepositorySync, syncKey.key)) else None
    case _ => None
  }

  function HashOf(c: Command): Hash
  {
    match c
    case StartWork(_, _, _, hash, _) => hash
    case AttachWorkspace(_, _, _, _, hash, _) => hash
    case UpdateStatus(_, _, _, _, hash, _) => hash
    case OfferHandoff(_, _, _, _, hash, _, _) => hash
    case AnswerHandoff(_, _, _, _, _, hash, _) => hash
    case Observe(_, _, _, hash, _) => hash
    case CompileContext(_, _, _, _, hash, _) => hash
    case ApplySnapshot(_, syncKey, _) => if syncKey.Manual? then syncKey.hash else 0
    case _ => 0
  }

  /** The writes of a command that succeeds for the first time. */
  ghost predicate Fresh(t: Tables, tt: Time, c: Command, e: Effect)
  {
    match c
    case StartSession(principal, agentType, node, observesGit) =>
      AgentSessions.SessionStartEffect(t, tt, principal, agentType, node, observesGit) == Ok(e)
    case Heartbeat(principal, allowAll, session) => AgentSessions.HeartbeatEffect(t, tt, principal, allowAll, session) == Ok(e)
    case CloseSession(principal, allowAll, session) => AgentSessions.CloseEffect(t, tt, principal, allowAll, session) == Ok(e)
    case RevokeSponsor(sponsor) => e == Effect(AgentSessions.RevokeSponsorEffect(t, tt, sponsor), NoContent, false)
    case StartWork(_, _, key, hash, request) =>
      && NormalizeScopes(request.scopes).Ok?
      && (forall s :: s in NormalizeScopes(request.scopes).value ==> NormalScope(s))
      && Coordination.Started(t, tt, key, hash, Coordination.WithScopes(request, NormalizeScopes(request.scopes).value), e)
    case AttachWorkspace(_, _, intent, key, hash, workspace) => Coordination.Attached(t, intent, key, hash, workspace, e)
    case UpdateStatus(_, _, intent, key, hash, change) => Coordination.Moved(t, tt, intent, key, hash, change, e)
    case OfferHandoff(_, _, intent, key, hash, _, offer) => Handoffs.OfferMade(t, tt, intent, key, hash, offer, e)
    case AnswerHandoff(_, allowAll, intent, handoff, key, hash, answer) => Handoffs.Answered(t, tt, allowAll, intent, handoff, key, hash, answer, e)
    case Observe(_, session, key, hash, observation) => AgentSessions.Noted(t, session, key, hash, observation, e)
    case CompileContext(_, _, _, key, hash, compile) => ContextPacks.Packed(t, tt, key, hash, compile, e)
    case ApplySnapshot(repository, syncKey, snapshot) => RepositorySync.Applied(t, tt, repository, syncKey, snapshot, e)
    case RecordFailure(repository, fullName, errorCode) =>
      && RepositorySync.FailureStored(t, tt, repository, fullName, errorCode, e.tables)
      && e.response == Synchronised(RepositorySync.FailedState(t, tt, repository, fullName, errorCode),
                                    RepositorySync.FailureChanges(RepositorySync.StateOf(t, repository), fullName, errorCode))
    case AttachRepository(attach, provider) => provider.Some? && ProjectRepositories.RepositoryLinked(t, attach, provider.value, e)
  }

  /** A command that succeeds either repeats its stored answer or writes, and a command without a
      record always writes. */
  lemma Outcomes(t: Tables, tt: Time, c: Command)
    requires Exec(t, tt, c).Ok?
    ensures var e := Exec(t, tt, c).value;
      if e.replayed then KeyOf(c).Some? && Repeats(t, e, KeyOf(c).value, HashOf(c)) else Fresh(t, tt, c, e)
  {
    hide AgentSessions.ObserveEffect, AgentSessions.RevokeSponsorEffect, Coordination.StartWorkEffect, Coordination.AttachEffect,
      Coordination.UpdateStatusEffect, Handoffs.OfferEffect, Handoffs.AnswerEffect, ContextPacks.CompileEffect,
      RepositorySync.ApplyEffect, RepositorySync.RecordFailureEffect, ProjectRepositories.AttachEffect,
      NormalizeScopes, NormalScope, Coordination.Started, Coordination.Attached, Coordination.Moved, Handoffs.OfferMade, Handoffs.Answered,
      AgentSessions.Noted, ContextPacks.Packed, RepositorySync.Applied, RepositorySync.FailureStored, ProjectRepositories.RepositoryLinked,
      Repeats;
    match c
    case StartSession(principal, agentType, node, observesGit) =>
    case Heartbeat(principal, allowAll, session) =>
    case CloseSession(principal, allowAll, session) =>
    case RevokeSponsor(sponsor) =>
    case StartWork(principal, allowAll, key, hash, request) =>
      var scopes := Coordination.StartWorkDelta(t, tt, principal, allowAll, key, hash, request);
    case AttachWorkspace(principal, allowAll, intent, key, hash, workspace) =>
      Coordination.AttachDelta(t, tt, principal, allowAll, intent, key, hash, workspace);
    case UpdateStatus(principal, allowAll, intent, key, hash, change) =>
      Coordination.MoveDelta(t, tt, principal, allowAll, intent, key, hash, change);
    case OfferHandoff(principal, allowAll, intent, key, hash, known, offer) =>
      Handoffs.OfferDelta(t, tt, principal, allowAll, intent, key, hash, known, offer);
    case AnswerHandoff(principal, allowAll, intent, handoff, key, hash, answer) =>
      Handoffs.AnswerDelta(t, tt, principal, allowAll, intent, handoff, key, hash, answer);
    case Observe(principal, session, key, hash, observation) =>
      AgentSessions.ObserveDelta(t, tt, principal, session, key, hash, observation);
    case CompileContext(principal, allowAll, activeActor, key, hash, compile) =>
      ContextPacks.CompileDelta(t, tt, principal, allowAll, activeActor, key, hash, compile);
    case ApplySnapshot(repository, syncKey, snapshot) =>
      RepositorySync.ApplyDelta(t, tt, repository, syncKey, snapshot);
    case RecordFailure(repository, fullName, errorCode) =>
      RepositorySync.FailureDelta(t, tt, repository, fullName, errorCode);
    case AttachRepository(attach, provider) =>
      ProjectRepositories.AttachDelta(t, tt, attach, provider);
  }

  ghost predicate MovesIntents(c: Command) { c.StartWork? || c.UpdateStatus? }
  ghost predicate MovesClaims(c: Command) { c.StartWork? || c.UpdateStatus? || c.Heartbeat? || c.CloseSession? }
  ghost predicate MovesWorktrees(c: Command) { c.AttachWorkspace? || c.UpdateStatus? }
  ghost predicate MovesHandoffs(c: Command) { c.OfferHandoff? || c.AnswerHandoff? }
  ghost predicate MovesSessions(c: Command) { c.StartSession? || c.Heartbeat? || c.CloseSession? || c.RevokeSponsor? }
  ghost predicate MovesCanon(c: Command) { c.ApplySnapshot? || c.RecordFailure? || c.AttachRepository? }

  /** Everything but the named tables stays; the log and the identifiers only grow. */
  ghost predicate Framed(t: Tables, c: Command, r: Tables)
  {
    && (MovesIntents(c) || r.intents == t.intents)
    && (MovesClaims(c) || r.claims == t.claims)
    && (MovesWorktrees(c) || r.worktrees == t.worktrees)
    && (MovesHandoffs(c) || r.handoffs == t.handoffs)
    && (MovesSessions(c) || r.sessions == t.sessions)
    && (MovesCanon(c) || SameCanon(t, r))
    && (c.Observe? || r.observations == t.observations)
    && (c.CompileContext? || r.packs == t.packs)
    && (MovesSessions(c) ==> Quiet(t, r))
    && t.nextId <= r.nextId
    && t.events <= r.events
  }

  lemma FreshIsFramed(t: Tables, tt: Time, c: Command, e: Effect)
    requires Fresh(t, tt, c, e)
    ensures Framed(t, c, e.tables)
  {
    hide Fresh, Framed;
    if MovesSessions(c) { SessionsAreFramed(t, tt, c, e); }
    else if MovesCanon(c) { CanonIsFramed(t, tt, c, e); }
    else if c.OfferHandoff? { OfferIsFramed(t, tt, c, e); }
    else { WorkIsFramed(t, tt, c, e); }
  }

  lemma SessionsAreFramed(t: Tables, tt: Time, c: Command, e: Effect)
    requires Fresh(t, tt, c, e) && MovesSessions(c)
    ensures Framed(t, c, e.tables)
  {
    hide AgentSessions.ExpirePredecessors, AgentSessions.RenewClaims, AgentSessions.RenewalInOrder, AgentSessions.ReleaseSession,
      AgentSessions.CloseSponsored;
  }

  lemma CanonIsFramed(t: Tables, tt: Time, c: Command, e: Effect)
    requires Fresh(t, tt, c, e) && MovesCanon(c)
    ensures Framed(t, c, e.tables)
  {
    hide RepositorySync.SnapshotChanges, RepositorySync.FailureChanges, RepositorySync.CanonicalProject, ProjectRepositories.LinkOrInsert;
    if c.AttachRepository? {
      var (repository, linked) := ProjectRepositories.LinkOrInsert(t, c.attach, c.provider.value);
      assert t.events <= linked.events;
    }
  }

  lemma OfferIsFramed(t: Tables, tt: Time, c: Command, e: Effect)
    requires Fresh(t, tt, c, e) && c.OfferHandoff?
    ensures Framed(t, c, e.tables)
  {
    hide Reserve, Handoffs.HasOffer, Handoffs.ExpireLapsed, Handoffs.LapsedOffer;
    var command := CommandKey(HandoffOffer, c.key);
    ReserveFrame(t, command, c.hash);
    var m := Handoffs.ExpireLapsed(Reserve(t, command, c.hash), tt, c.intent, t.nextId);
    assert t.events <= m.events;
  }

  lemma WorkIsFramed(t: Tables, tt: Time, c: Command, e: Effect)
    requires Fresh(t, tt, c, e) && !MovesSessions(c) && !MovesCanon(c) && !c.OfferHandoff?
    ensures Framed(t, c, e.tables)
  {
    hide NormalizeScopes, NormalScope, Coordination.Reserved, Coordination.ScopeOverlaps, Coordination.HasBlocking, Coordination.MoveRow,
      Coordination.HasLiveWorktree, Handoffs.AnswerRefusal;
  }

  lemma HeartbeatIsExec(t: Tables, tt: Time, c: Command)
    requires c.Heartbeat?
    ensures Exec(t, tt, c) == AgentSessions.HeartbeatEffect(t, tt, c.principal, c.allowAll, c.session)
  {
  }

  lemma StartIsFresh(t: Tables, tt: Time, c: Command, e: Effect)
    requires c.StartWork? && Fresh(t, tt, c, e)
    ensures NormalizeScopes(c.request.scopes).Ok?
    ensures forall s :: s in NormalizeScopes(c.request.scopes).value ==> NormalScope(s)
    ensures Coordination.Started(t, tt, c.key, c.hash, Coordination.WithScopes(c.request, NormalizeScopes(c.request.scopes).value), e)
  {
  }

  /** A status change leaves sessions alone and at most releases claims. */
  lemma MovesReleaseOnly(t: Tables, tt: Time, c: Command, e: Effect)
    requires Fresh(t, tt, c, e) && c.UpdateStatus?
    ensures e.tables.sessions == t.sessions
    ensures forall id: Id :: id in e.tables.claims ==> id in t.claims && e.tables.claims[id] == t.claims[id].(status := e.tables.claims[id].status)
    ensures forall id: Id :: id in e.tables.claims && e.tables.claims[id].status.ClaimActive? ==> t.claims[id].status.ClaimActive?
  {
    hide Coordination.FreezeWorktrees, Coordination.ArchiveWorktrees, Coordination.MoveRow;
  }
}
