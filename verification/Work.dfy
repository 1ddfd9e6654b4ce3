/** Intents, claims and worktrees over whole runs: finished work stays finished. */
module Work {
  import opened Wrappers
  import opened Scopes
  import opened Tables
  import opened Commands
  import opened Server
  import opened Frames
  import Coordination
  import AgentSessions
  import Handoffs
  import RepositorySync
  import ProjectRepositories

  // ---- Identifiers ----

  /** Every identifier in use has been drawn. */
  ghost predicate Numbered(t: Tables)
  {
    && (forall id: Id :: id in t.sessions ==> id < t.nextId)
    && (forall id: Id :: id in t.intents ==> id < t.nextId)
    && (forall id: Id :: id in t.claims ==> id < t.nextId)
    && (forall id: Id :: id in t.worktrees ==> id < t.nextId)
    && (forall id: Id :: id in t.handoffs ==> id < t.nextId)
    && (forall id: Id :: id in t.packs ==> id < t.nextId)
    && (forall id: Id :: id in t.repositories ==> id < t.nextId)
  }

  lemma NumberedKept(t: Tables, tt: Time, c: Command, e: Effect)
    requires Fresh(t, tt, c, e) && Numbered(t)
    ensures Numbered(e.tables)
  {
    FreshIsFramed(t, tt, c, e);
    if MovesSessions(c) { NumberedBySessions(t, tt, c, e); }
    else if MovesCanon(c) { NumberedByCanon(t, tt, c, e); }
    else if MovesHandoffs(c) { NumberedByHandoffs(t, tt, c, e); }
    else { NumberedByWork(t, tt, c, e); }
  }

  lemma NumberedBySessions(t: Tables, tt: Time, c: Command, e: Effect)
    requires Fresh(t, tt, c, e) && Numbered(t) && MovesSessions(c)
    ensures Numbered(e.tables)
  {
    hide AgentSessions.RenewalInOrder;
  }

  lemma NumberedByCanon(t: Tables, tt: Time, c: Command, e: Effect)
    requires Fresh(t, tt, c, e) && Framed(t, c, e.tables) && Numbered(t) && MovesCanon(c)
    ensures Numbered(e.tables)
  {
    hide RepositorySync.SnapshotChanges, RepositorySync.FailureChanges, RepositorySync.CanonicalProject, ProjectRepositories.LinkOrInsert,
      ProjectRepositories.NewRow, ProjectRepositories.LinkRow, ProjectRepositories.Matches, ProjectRepositories.FindExisting;
  }

  lemma NumberedByHandoffs(t: Tables, tt: Time, c: Command, e: Effect)
    requires Fresh(t, tt, c, e) && Framed(t, c, e.tables) && Numbered(t) && MovesHandoffs(c)
    ensures Numbered(e.tables)
  {
    hide Reserve, Handoffs.HasOffer, Handoffs.ExpireLapsed, Handoffs.AnswerRefusal, Numbered;
    if c.OfferHandoff? {
      ReserveFrame(t, CommandKey(HandoffOffer, c.key), c.hash);
    }
    assert forall id: Id :: id in e.tables.handoffs && id !in t.handoffs ==> id < e.tables.nextId;
    hide Fresh;
    HandoffsStayNumbered(t, c, e.tables);
  }

  lemma HandoffsStayNumbered(t: Tables, c: Command, r: Tables)
    requires Framed(t, c, r) && Numbered(t) && MovesHandoffs(c)
    requires forall id: Id :: id in r.handoffs && id !in t.handoffs ==> id < r.nextId
    ensures Numbered(r)
  {
  }

  lemma NumberedByWork(t: Tables, tt: Time, c: Command, e: Effect)
    requires Fresh(t, tt, c, e) && Framed(t, c, e.tables) && Numbered(t)
    requires !MovesSessions(c) && !MovesCanon(c) && !MovesHandoffs(c)
    ensures Numbered(e.tables)
  {
    hide NormalizeScopes, NormalScope, Coordination.StartLogged, Coordination.StartAnswered, Coordination.MoveRow, Coordination.HasLiveWorktree;
  }

  // ---- Claims and worktrees ----

  /** Claims hold normal scopes for an existing intent, and only unfinished work keeps one active. */
  ghost predicate ClaimsSound(t: Tables)
  {
    forall id: Id :: id in t.claims ==>
      && t.claims[id].intent in t.intents
      && NormalScope(t.claims[id].scope)
      && (t.claims[id].status.ClaimActive? ==> !IsTerminal(t.intents[t.claims[id].intent].status))
  }

  /** The worktrees of finished work are archived, those of unfinished work are live. */
  ghost predicate WorktreesSound(t: Tables)
  {
    forall id: Id :: id in t.worktrees ==>
      && t.worktrees[id].intent in t.intents
      && (if IsTerminal(t.intents[t.worktrees[id].intent].status) then t.worktrees[id].status.Archived?
          else LiveWorktree(t.worktrees[id].status))
  }

  /** An intent has at most one worktree row over its whole life. */
  ghost predicate OneWorktreeEach(t: Tables)
  {
    forall a: Id, b: Id :: a in t.worktrees && b in t.worktrees && t.worktrees[a].intent == t.worktrees[b].intent ==> a == b
  }

  /** An intent carries a completion time exactly when it is completed. */
  ghost predicate IntentsSound(t: Tables)
  {
    forall id: Id :: id in t.intents ==> t.intents[id].version >= 1 && (t.intents[id].completedAt.Some? <==> t.intents[id].status.Completed?)
  }

  ghost predicate WorkSound(t: Tables)
  {
    ClaimsSound(t) && WorktreesSound(t) && OneWorktreeEach(t) && IntentsSound(t)
  }

  lemma WorkKept(t: Tables, tt: Time, c: Command, e: Effect)
    requires Fresh(t, tt, c, e) && Numbered(t) && WorkSound(t)
    ensures WorkSound(e.tables)
  {
    FreshIsFramed(t, tt, c, e);
    hide WorkSound, NormalizeScopes, NormalScope, Coordination.Started, Coordination.Moved, Coordination.Attached,
      AgentSessions.HeartbeatEffect, AgentSessions.CloseEffect;
    match c
    case StartWork(_, _, key, hash, request) =>
      WorkKeptByStart(t, tt, key, hash, Coordination.WithScopes(request, NormalizeScopes(request.scopes).value), e);
    case UpdateStatus(_, _, intent, key, hash, change) => WorkKeptByMove(t, tt, intent, key, hash, change, e);
    case AttachWorkspace(_, _, intent, key, hash, workspace) => WorkKeptByAttach(t, intent, key, hash, workspace, e);
    case Heartbeat(principal, allowAll, session) => WorkKeptByHeartbeat(t, tt, principal, allowAll, session, e);
    case CloseSession(principal, allowAll, session) => WorkKeptByClose(t, tt, principal, allowAll, session, e);
    case _ => SameWorkIsSound(t, tt, c, e);
  }

  lemma SameWorkIsSound(t: Tables, tt: Time, c: Command, e: Effect)
    requires Framed(t, c, e.tables) && !MovesIntents(c) && !MovesClaims(c) && !MovesWorktrees(c) && WorkSound(t)
    ensures WorkSound(e.tables)
  {
    hide NormalScope;
  }

  lemma WorkKeptByStart(t: Tables, tt: Time, key: string, hash: Hash, input: Coordination.StartInput, e: Effect)
    requires Coordination.Started(t, tt, key, hash, input, e)
    requires (forall s :: s in input.scopes ==> NormalScope(s)) && Numbered(t) && WorkSound(t)
    ensures WorkSound(e.tables)
  {
    hide NormalScope, Coordination.StartLogged, Coordination.StartAnswered;
    var r, first := e.tables, t.nextId + 2;
    forall id: Id | id in r.claims
      ensures r.claims[id].intent in r.intents && NormalScope(r.claims[id].scope)
      ensures r.claims[id].status.ClaimActive? ==> !IsTerminal(r.intents[r.claims[id].intent].status)
    {
      if id in t.claims {
        assert r.claims[id] == t.claims[id];
      } else {
        assert r.claims[first + (id - first)].scope == input.scopes[id - first];
      }
    }
  }

  lemma WorkKeptByMove(t: Tables, tt: Time, intent: Id, key: string, hash: Hash, input: Coordination.StatusInput, e: Effect)
    requires Coordination.Moved(t, tt, intent, key, hash, input, e) && WorkSound(t)
    ensures WorkSound(e.tables)
  {
    IntentsKeptByMove(t, tt, intent, key, hash, input, e);
    ClaimsKeptByMove(t, tt, intent, key, hash, input, e);
    WorktreesKeptByMove(t, tt, intent, key, hash, input, e);
    hide Coordination.Moved, IntentsSound, ClaimsSound, WorktreesSound, OneWorktreeEach;
  }

  lemma ClaimsKeptByMove(t: Tables, tt: Time, intent: Id, key: string, hash: Hash, input: Coordination.StatusInput, e: Effect)
    requires Coordination.Moved(t, tt, intent, key, hash, input, e) && ClaimsSound(t)
    ensures ClaimsSound(e.tables)
  {
    hide NormalScope, Records, Logs, SameSessions, SameHandoffs, SamePacks, SameCanon, Coordination.FreezeWorktrees, Coordination.ArchiveWorktrees;
  }

  lemma WorktreesKeptByMove(t: Tables, tt: Time, intent: Id, key: string, hash: Hash, input: Coordination.StatusInput, e: Effect)
    requires Coordination.Moved(t, tt, intent, key, hash, input, e) && WorktreesSound(t) && OneWorktreeEach(t)
    ensures WorktreesSound(e.tables) && OneWorktreeEach(e.tables)
  {
    hide NormalScope, Records, Logs, SameSessions, SameHandoffs, SamePacks, SameCanon, Coordination.ReleaseIntent;
  }

  lemma IntentsKeptByMove(t: Tables, tt: Time, intent: Id, key: string, hash: Hash, input: Coordination.StatusInput, e: Effect)
    requires Coordination.Moved(t, tt, intent, key, hash, input, e) && IntentsSound(t)
    ensures IntentsSound(e.tables)
  {
    hide Coordination.FreezeWorktrees, Coordination.ArchiveWorktrees, Coordination.ReleaseIntent;
  }

  lemma WorkKeptByAttach(t: Tables, intent: Id, key: string, hash: Hash, input: Coordination.WorkspaceInput, e: Effect)
    requires Coordination.Attached(t, intent, key, hash, input, e) && Numbered(t) && WorkSound(t)
    ensures WorkSound(e.tables)
  {
    hide NormalScope;
    assert forall id: Id :: id in t.worktrees && t.worktrees[id].intent == intent ==> LiveWorktree(t.worktrees[id].status);
  }

  lemma WorkKeptByHeartbeat(t: Tables, tt: Time, principal: Id, allowAll: bool, session: Id, e: Effect)
    requires AgentSessions.HeartbeatEffect(t, tt, principal, allowAll, session) == Ok(e) && WorkSound(t)
    ensures WorkSound(e.tables)
  {
    hide NormalScope, AgentSessions.RenewalInOrder;
  }

  lemma WorkKeptByClose(t: Tables, tt: Time, principal: Id, allowAll: bool, session: Id, e: Effect)
    requires AgentSessions.CloseEffect(t, tt, principal, allowAll, session) == Ok(e) && WorkSound(t)
    ensures WorkSound(e.tables)
  {
    hide NormalScope;
  }

  /** What a status change means for the rest of the work: submitting freezes the intent's worktrees and
      keeps its claims, finishing releases its claims and archives its worktrees, any other move leaves
      both alone, and no move touches another intent's work. */
  lemma StatusChangeReaches(t: Tables, tt: Time, intent: Id, key: string, hash: Hash, input: Coordination.StatusInput, e: Effect)
    requires Coordination.Moved(t, tt, intent, key, hash, input, e) && WorkSound(t)
    ensures var r := e.tables;
      && r.intents.Keys == t.intents.Keys && r.claims.Keys == t.claims.Keys && r.worktrees.Keys == t.worktrees.Keys
      && (forall id: Id :: id in t.intents && id != intent ==> r.intents[id] == t.intents[id])
      && (forall id: Id :: id in t.claims && t.claims[id].intent != intent ==> r.claims[id] == t.claims[id])
      && (forall id: Id :: id in t.worktrees && t.worktrees[id].intent != intent ==> r.worktrees[id] == t.worktrees[id])
      && (forall id: Id :: id in t.worktrees && t.worktrees[id].intent == intent ==>
            r.worktrees[id].status ==
              if input.status.Submitted? then Frozen else if IsTerminal(input.status) then Archived else t.worktrees[id].status)
      && (forall id: Id :: id in t.claims && t.claims[id].intent == intent ==>
            r.claims[id] == if IsTerminal(input.status) then t.claims[id].(status := r.claims[id].status) else t.claims[id])
      && (forall id: Id :: id in t.claims && t.claims[id].intent == intent && IsTerminal(input.status) ==> !r.claims[id].status.ClaimActive?)
      && r.intents[intent].version == t.intents[intent].version + 1
  {
    hide NormalScope;
  }

  /** Closing a session releases what it holds and nothing else. */
  lemma CloseReleasesItsClaims(t: Tables, tt: Time, principal: Id, allowAll: bool, session: Id, e: Effect)
    requires AgentSessions.CloseEffect(t, tt, principal, allowAll, session) == Ok(e)
    ensures e.tables.claims.Keys == t.claims.Keys
    ensures forall id: Id :: id in t.claims && t.claims[id].session == session ==> !e.tables.claims[id].status.ClaimActive?
    ensures forall id: Id :: id in t.claims && t.claims[id].session != session ==> e.tables.claims[id] == t.claims[id]
    ensures forall id: Id :: id in t.sessions && id != session ==> id in e.tables.sessions && e.tables.sessions[id] == t.sessions[id]
    ensures session in e.tables.sessions && e.tables.sessions[session].status.Closed?
  {
  }
}
