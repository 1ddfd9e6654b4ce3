/** Who may do what, and when: for every command the exact condition under which it succeeds, in terms of
    the rows alone. */
module Admission {
  import opened Wrappers
  import opened Tables
  import opened Commands
  import opened Server
  import opened Frames
  import opened Work
  import opened Runs
  import Text
  import Scopes
  import Coordination
  import AgentSessions
  import Handoffs
  import HandoffProtocol
  import ContextPacks
  import RepositorySync
  import ProjectRepositories
  import Projects
  import LazyExpiry
  import Log
  import History
  import Canonical
  import Idempotency
  import Guarantees

  // ---- Sessions ----

  /** The session is active and unexpired, and belongs to the principal unless the principal may use all. */
  predicate Holds(t: Tables, tt: Time, principal: Id, allowAll: bool, session: Id)
  {
    && session in t.sessions
    && t.sessions[session].status == SessionActive
    && tt < t.sessions[session].expiresAt
    && (t.sessions[session].actor.sponsor == principal || allowAll)
  }

  /** And its agent is the one responsible for the intent, unless the principal may use all. */
  predicate HoldsFor(t: Tables, tt: Time, principal: Id, allowAll: bool, session: Id, intent: Id)
  {
    && Holds(t, tt, principal, allowAll, session)
    && intent in t.intents
    && (t.sessions[session].actor == t.intents[intent].responsible || allowAll)
  }

  predicate Finished(status: IntentStatus)
  {
    status in {Completed, Cancelled, Abandoned}
  }

  /** Every move an intent can make. */
  predicate Moves(from: IntentStatus, to: IntentStatus)
  {
    (from, to) in {
      (Draft, Active), (Draft, Cancelled), (Draft, Abandoned),
      (Active, Blocked), (Active, Submitted), (Active, Cancelled), (Active, Abandoned),
      (Blocked, Active), (Blocked, Submitted), (Blocked, Cancelled), (Blocked, Abandoned),
      (Submitted, Completed), (Submitted, Blocked), (Submitted, Cancelled)
    }
  }

  // ---- Allowed: what is checked whether or not the command is a retry ----

  ghost predicate MayObserve(t: Tables, tt: Time, principal: Id, session: Id, worktree: Option<Id>)
  {
    && Holds(t, tt, principal, false, session)
    && t.sessions[session].observesGit
    && (worktree.Some? ==>
          && worktree.value in t.worktrees
          && t.worktrees[worktree.value].session == session
          && t.worktrees[worktree.value].status in {Provisioning, Ready, WorktreeActive, Frozen})
  }

  ghost predicate Allowed(t: Tables, tt: Time, c: Command)
  {
    match c
    case StartWork(principal, allowAll, _, _, request) =>
      Scopes.NormalizeScopes(request.scopes).Ok? && Holds(t, tt, principal, allowAll, request.session)
    case AttachWorkspace(principal, allowAll, intent, _, _, workspace) =>
      && HoldsFor(t, tt, principal, allowAll, workspace.session, intent)
      && !Finished(t.intents[intent].status)
      && t.project.root.Some?
    case UpdateStatus(principal, allowAll, intent, _, _, change) => HoldsFor(t, tt, principal, allowAll, change.session, intent)
    case OfferHandoff(principal, allowAll, intent, _, _, _, offer) =>
      && HoldsFor(t, tt, principal, allowAll, offer.session, intent)
      && t.intents[intent].status !in {Cancelled, Abandoned}
    case AnswerHandoff(principal, allowAll, intent, handoff, _, _, answer) =>
      && Holds(t, tt, principal, allowAll, answer.session)
      && handoff in t.handoffs && t.handoffs[handoff].intent == intent && intent in t.intents
    case Observe(principal, session, _, _, observation) => MayObserve(t, tt, principal, session, observation.worktree)
    case CompileContext(principal, allowAll, activeActor, _, _, compile) =>
      && compile.intent in t.intents
      && (if compile.session.Some? then Holds(t, tt, principal, allowAll, compile.session.value) else activeActor)
    case _ => true
  }

  // ---- Possible: what a first attempt needs besides ----

  /** Some live claim on the repository and some requested scope share a path, and one of them is exclusive. */
  ghost predicate Contended(t: Tables, tt: Time, repository: Id, requested: seq<Scopes.Scope>)
  {
    exists id: Id, i: int :: 0 <= i < |requested| && LiveOn(t, tt, repository, id) && Clash(t.claims[id].scope, requested[i])
  }

  predicate LiveOn(t: Tables, tt: Time, repository: Id, id: Id)
  {
    && id in t.claims
    && t.claims[id].status == ClaimActive
    && tt < t.claims[id].expiresAt
    && t.claims[id].repository == repository
  }

  ghost predicate Clash(a: Scopes.Scope, b: Scopes.Scope)
  {
    Scopes.Intersect(a, b) && (a.mode == Scopes.Exclusive || b.mode == Scopes.Exclusive)
  }

  ghost predicate Startable(t: Tables, tt: Time, requested: seq<Scopes.Scope>, allowOverlap: bool)
  {
    && !t.project.archived
    && t.project.root.Some?
    && (Contended(t, tt, t.project.root.value, requested) ==> allowOverlap)
    && (forall i, j :: 0 <= i < j < |requested| ==> requested[i].kind != requested[j].kind || requested[i].locator != requested[j].locator)
  }

  ghost predicate Offerable(t: Tables, tt: Time, intent: Id, known: set<Id>, offer: Handoffs.OfferInput)
  {
    && offer.hours >= 1
    && (forall id: Id :: id in t.handoffs && t.handoffs[id].intent == intent && t.handoffs[id].status == Offered ==> t.handoffs[id].expiresAt <= tt)
    && (forall record :: record in offer.records ==> record in known)
    && (forall i, j :: 0 <= i < j < |offer.records| ==> offer.records[i] != offer.records[j])
  }

  /** An open handoff at the expected version and before its deadline: its offerer may withdraw it, and
      anybody else may accept it. */
  predicate Answerable(t: Tables, tt: Time, allowAll: bool, handoff: Id, answer: Handoffs.AnswerInput)
    requires handoff in t.handoffs && answer.session in t.sessions
  {
    var row, actor := t.handoffs[handoff], t.sessions[answer.session].actor;
    && row.status == Offered
    && tt < row.expiresAt
    && answer.expectedVersion == row.version
    && match answer.answer
       case Withdraw => actor == row.from || allowAll
       case Accept => actor != row.from
  }

  predicate ActiveRepository(t: Tables, repository: Id)
  {
    repository in t.repositories && t.repositories[repository].status == RepositoryActive
  }

  predicate InUse(t: Tables, repository: Id)
  {
    repository in t.repositories && t.repositories[repository].status != RepositoryArchived
  }

  /** A repository in use under the provider's number or its name in lower case. */
  predicate IsProvider(t: Tables, github: int, provider: ProjectRepositories.Provider, id: Id)
  {
    InUse(t, id) && (t.repositories[id].github == Some(github) || t.repositories[id].remoteName == Text.ToLower(provider.fullName))
  }

  /** The one that is linked: one with a number comes before those without, then the oldest. */
  ghost predicate Chosen(t: Tables, github: int, provider: ProjectRepositories.Provider, id: Id)
  {
    && IsProvider(t, github, provider, id)
    && forall other: Id :: IsProvider(t, github, provider, other) && other != id ==>
         if t.repositories[id].github.Some? == t.repositories[other].github.Some? then id < other else t.repositories[id].github.Some?
  }

  ghost predicate Possible(t: Tables, tt: Time, c: Command)
    requires Allowed(t, tt, c)
  {
    match c
    case StartSession(_, _, _, _) => !t.project.archived
    case Heartbeat(principal, allowAll, session) =>
      && session in t.sessions
      && t.sessions[session].status == SessionActive
      && (t.sessions[session].actor.sponsor == principal || allowAll)
      && t.sessions[session].startedAt <= tt
      && (forall id: Id :: id in t.claims && t.claims[id].session == session && t.claims[id].status == ClaimActive ==> t.claims[id].createdAt <= tt)
    case CloseSession(principal, allowAll, session) =>
      && session in t.sessions
      && t.sessions[session].status in {Starting, SessionActive, Stale}
      && (t.sessions[session].actor.sponsor == principal || allowAll)
      && t.sessions[session].startedAt <= tt <= t.sessions[session].expiresAt
    case RevokeSponsor(_) => true
    case StartWork(_, _, _, _, request) => Startable(t, tt, Scopes.NormalizeScopes(request.scopes).value, request.allowOverlap)
    case AttachWorkspace(_, _, intent, _, _, _) =>
      forall id: Id :: id in t.worktrees && t.worktrees[id].intent == intent ==> t.worktrees[id].status !in {Provisioning, Ready, WorktreeActive, Frozen}
    case UpdateStatus(_, _, intent, _, _, change) =>
      t.intents[intent].version == change.expectedVersion && Moves(t.intents[intent].status, change.status)
    case OfferHandoff(_, _, intent, _, _, known, offer) => Offerable(t, tt, intent, known, offer)
    case AnswerHandoff(_, allowAll, _, handoff, _, _, answer) => Answerable(t, tt, allowAll, handoff, answer)
    case Observe(_, _, _, _, _) => true
    case CompileContext(_, _, _, _, _, _) => true
    case ApplySnapshot(repository, _, _) => !t.project.archived && ActiveRepository(t, repository)
    case RecordFailure(repository, _, _) =>
      && ActiveRepository(t, repository)
      && (repository in t.providers && t.providers[repository].successAt.Some? ==> t.providers[repository].successAt.value <= tt)
    case AttachRepository(attach, provider) =>
      && !t.project.archived
      && provider.Some?
      && forall id: Id, other: Id :: Chosen(t, attach.github, provider.value, id) && other != id && InUse(t, other) ==>
           t.repositories[other].github != Some(attach.github)
  }

  /** A command succeeds: allowed, and either a retry with the digest on record or a possible first attempt. */
  ghost predicate Admitted(t: Tables, tt: Time, c: Command)
  {
    && Allowed(t, tt, c)
    && if KeyOf(c).Some? && KeyOf(c).value in t.commands then t.commands[KeyOf(c).value].hash == HashOf(c)
       else Possible(t, tt, c)
  }

  // ---- Command by command ----

  lemma SessionCommands(t: Tables, tt: Time, c: Command)
    requires MovesSessions(c)
    ensures Exec(t, tt, c).Ok? <==> Admitted(t, tt, c)
  {
    hide AgentSessions.ExpirePredecessors, AgentSessions.RenewClaims, AgentSessions.ReleaseSession, AgentSessions.CloseSponsored;
    assert SessionActive != Starting && Stale != Starting;
  }

  lemma PlainCommands(t: Tables, tt: Time, c: Command)
    requires c.UpdateStatus? || c.AnswerHandoff? || c.Observe? || c.CompileContext? || c.ApplySnapshot? || c.RecordFailure?
    requires Idempotency.AllComplete(t)
    ensures Exec(t, tt, c).Ok? <==> Admitted(t, tt, c)
  {
    hide Coordination.MoveIntent, Handoffs.StoreAnswer, AgentSessions.StoreObservation, ContextPacks.StorePack, RepositorySync.StoreSnapshot,
      RepositorySync.StoreFailure, RepositorySync.SnapshotChanges, RepositorySync.FailureChanges, RepositorySync.FailedState;
  }

  lemma AttachCommand(t: Tables, tt: Time, c: Command)
    requires c.AttachWorkspace? && Idempotency.AllComplete(t)
    ensures Exec(t, tt, c).Ok? <==> Admitted(t, tt, c)
  {
    hide Coordination.InsertWorktree;
  }

  // ---- work.start ----

  /** The overlap query sees exactly the live claims on the repository. */
  lemma QuerySeesLiveClaims(t: Tables, tt: Time, repository: Id, id: Id)
    requires Numbered(t) && ClaimsSound(t)
    ensures id in Coordination.ReservingRows(t, tt, repository, t.nextId) <==> LiveOn(t, tt, repository, id)
  {
    hide Scopes.NormalScope;
  }

  /** Every overlap that is answered pairs a requested scope with a live claim that shares a path with it,
      shows that claim and its intent as they are, and blocks exactly when one of the two is exclusive. */
  ghost predicate Truthful(t: Tables, tt: Time, repository: Id, requested: seq<Scopes.Scope>, o: Overlap)
  {
    && o.requested in requested
    && LiveOn(t, tt, repository, o.claim)
    && Scopes.Intersect(t.claims[o.claim].scope, o.requested)
    && o.scope == t.claims[o.claim].scope
    && o.expiresAt == t.claims[o.claim].expiresAt
    && o.intent == t.claims[o.claim].intent
    && o.intent in t.intents
    && o.title == t.intents[o.intent].title
    && o.status == t.intents[o.intent].status
    && o.actor == t.intents[o.intent].responsible
    && (o.blocking <==> o.requested.mode == Scopes.Exclusive || o.scope.mode == Scopes.Exclusive)
    && o.reason ==
       if o.requested.kind == Scopes.RepositoryKind || o.scope.kind == Scopes.RepositoryKind then Scopes.RepositoryScope
       else if o.requested.locator == o.scope.locator then Scopes.ExactScope
       else Scopes.PathHierarchy
  }

  lemma OverlapsAreTruthful(t: Tables, tt: Time, repository: Id, requested: seq<Scopes.Scope>, o: Overlap)
    requires Numbered(t) && ClaimsSound(t) && forall s :: s in requested ==> Scopes.NormalScope(s)
    requires o in Coordination.ScopeOverlaps(t, tt, repository, requested)
    ensures Truthful(t, tt, repository, requested, o)
  {
    hide Scopes.NormalScope, Scopes.ScopesOverlap, Scopes.Intersect, Coordination.ReservingRows, Coordination.OverlapsOfAll;
    var rows := Coordination.ReservingRows(t, tt, repository, t.nextId);
    Coordination.OverlapsAreExact(t, requested, rows, o);
    var i, id :|
      && 0 <= i < |requested|
      && id in rows
      && Scopes.ScopesOverlap(requested[i], t.claims[id].scope)
      && o == Coordination.OverlapWith(t, requested[i], id);
    QuerySeesLiveClaims(t, tt, repository, id);
    Scopes.OverlapIsIntersection(requested[i], t.claims[id].scope);
    Symmetric(requested[i], t.claims[id].scope);
  }

  lemma Symmetric(a: Scopes.Scope, b: Scopes.Scope)
    ensures Scopes.Intersect(a, b) <==> Scopes.Intersect(b, a)
  {
  }

  /** And every such pair is answered. */
  lemma OverlapsAreComplete(t: Tables, tt: Time, repository: Id, requested: seq<Scopes.Scope>, id: Id, i: nat)
    requires Numbered(t) && ClaimsSound(t) && i < |requested| && Scopes.NormalScope(requested[i])
    requires LiveOn(t, tt, repository, id) && Scopes.Intersect(t.claims[id].scope, requested[i])
    ensures exists o :: o in Coordination.ScopeOverlaps(t, tt, repository, requested) && o.claim == id && o.requested == requested[i]
  {
    hide Scopes.NormalScope, Scopes.ScopesOverlap, Scopes.Intersect, Coordination.ReservingRows, Coordination.OverlapsOfAll;
    var rows := Coordination.ReservingRows(t, tt, repository, t.nextId);
    QuerySeesLiveClaims(t, tt, repository, id);
    Symmetric(requested[i], t.claims[id].scope);
    Scopes.OverlapIsIntersection(requested[i], t.claims[id].scope);
    var o := Coordination.OverlapWith(t, requested[i], id);
    Coordination.OverlapsAreExact(t, requested, rows, o);
  }

  /** Hence a request meets a blocking overlap if and only if it is contended. */
  lemma BlockedIfContended(t: Tables, tt: Time, repository: Id, requested: seq<Scopes.Scope>)
    requires Numbered(t) && ClaimsSound(t) && forall s :: s in requested ==> Scopes.NormalScope(s)
    ensures Coordination.HasBlocking(Coordination.ScopeOverlaps(t, tt, repository, requested)) <==> Contended(t, tt, repository, requested)
  {
    hide Scopes.NormalScope, Scopes.Intersect, Coordination.ScopeOverlaps, Numbered, ClaimsSound;
    var overlaps := Coordination.ScopeOverlaps(t, tt, repository, requested);
    if Coordination.HasBlocking(overlaps) {
      var k :| 0 <= k < |overlaps| && overlaps[k].blocking;
      var o := overlaps[k];
      OverlapsAreTruthful(t, tt, repository, requested, o);
      var i :| 0 <= i < |requested| && requested[i] == o.requested;
      assert LiveOn(t, tt, repository, o.claim) && Clash(t.claims[o.claim].scope, requested[i]);
    }
    if Contended(t, tt, repository, requested) {
      var id: Id, i: int :| 0 <= i < |requested| && LiveOn(t, tt, repository, id) && Clash(t.claims[id].scope, requested[i]);
      OverlapsAreComplete(t, tt, repository, requested, id, i);
      var o :| o in overlaps && o.claim == id && o.requested == requested[i];
      OverlapsAreTruthful(t, tt, repository, requested, o);
      var k :| 0 <= k < |overlaps| && overlaps[k] == o;
      assert overlaps[k].blocking;
    }
  }

  /** Reserving the command changes nothing that the query looks at. */
  lemma ReservingKeepsRows(t: Tables, key: CommandKey, hash: Hash, tt: Time, repository: Id, requested: seq<Scopes.Scope>)
    requires Numbered(t) && ClaimsSound(t)
    ensures Numbered(Reserve(t, key, hash)) && ClaimsSound(Reserve(t, key, hash))
    ensures Contended(Reserve(t, key, hash), tt, repository, requested) <==> Contended(t, tt, repository, requested)
  {
    hide Scopes.NormalScope, Clash, Reserve;
    ReserveFrame(t, key, hash);
    var r := Reserve(t, key, hash);
    assert forall id: Id :: LiveOn(r, tt, repository, id) <==> LiveOn(t, tt, repository, id);
    if Contended(t, tt, repository, requested) {
      var id: Id, i: int :| 0 <= i < |requested| && LiveOn(t, tt, repository, id) && Clash(t.claims[id].scope, requested[i]);
      assert LiveOn(r, tt, repository, id) && Clash(r.claims[id].scope, requested[i]);
    }
    if Contended(r, tt, repository, requested) {
      var id: Id, i: int :| 0 <= i < |requested| && LiveOn(r, tt, repository, id) && Clash(r.claims[id].scope, requested[i]);
      assert LiveOn(t, tt, repository, id) && Clash(t.claims[id].scope, requested[i]);
    }
  }

  /** Inserting the claims of the new intent succeeds if and only if no resource is asked for twice. */
  lemma ClaimsFit(s: Tables, tt: Time, command: CommandKey, commandId: Id, actor: Agent, repository: Id, overlaps: seq<Overlap>, input: Coordination.StartInput)
    requires Numbered(s) && ClaimsSound(s)
    ensures Coordination.StartUnopposed(s, tt, command, commandId, actor, repository, overlaps, input).Ok? <==> Coordination.OneModeEach(input.scopes)
    ensures Coordination.StartUnopposed(s, tt, command, commandId, actor, repository, overlaps, input).Ok? ==>
      !Coordination.StartUnopposed(s, tt, command, commandId, actor, repository, overlaps, input).value.replayed
  {
    hide Scopes.NormalScope, Coordination.OneModeEach, Coordination.InsertClaims, Coordination.Consecutive, Coordination.HasBlocking, Complete, AppendEvent;
    var inserted := Coordination.InsertIntent(s, Intent(input.title, input.baseRevision, actor, Active, None, 1, None));
    Coordination.ClaimsNeedOneMode(inserted, tt, s.nextId, input.session, repository, input.scopes);
  }

  /** A fresh work.start by a session that may act, on a project with a primary repository: refused with
      the overlaps if and only if it is contended and asks for no override; otherwise it succeeds exactly
      when it asks for each resource in one mode. */
  lemma FreshStart(t: Tables, tt: Time, principal: Id, allowAll: bool, key: string, hash: Hash, input: Coordination.StartInput)
    requires Numbered(t) && ClaimsSound(t) && forall s :: s in input.scopes ==> Scopes.NormalScope(s)
    requires CommandKey(WorkStart, key) !in t.commands && Holds(t, tt, principal, allowAll, input.session)
    requires !t.project.archived && t.project.root.Some?
    ensures var r := Coordination.StartEffect(t, tt, principal, allowAll, key, hash, input);
      && ((r.Err? && r.error.ScopeConflict?) <==> Contended(t, tt, t.project.root.value, input.scopes) && !input.allowOverlap)
      && (r.Ok? <==> (Contended(t, tt, t.project.root.value, input.scopes) ==> input.allowOverlap) && Coordination.OneModeEach(input.scopes))
      && (r.Ok? ==> !r.value.replayed)
  {
    hide Scopes.NormalScope, Contended, Coordination.ScopeOverlaps, Coordination.HasBlocking, Coordination.StartUnopposed, Coordination.OneModeEach,
      Numbered, ClaimsSound, Reserve;
    var command := CommandKey(WorkStart, key);
    var reserved, repository := Reserve(t, command, hash), t.project.root.value;
    ReservingKeepsRows(t, command, hash, tt, repository, input.scopes);
    BlockedIfContended(reserved, tt, repository, input.scopes);
    var overlaps := Coordination.ScopeOverlaps(reserved, tt, repository, input.scopes);
    ClaimsFit(reserved, tt, command, t.nextId, t.sessions[input.session].actor, repository, overlaps, input);
    InsertionFailsOtherwise(reserved, tt, command, t.nextId, t.sessions[input.session].actor, repository, overlaps, input);
  }

  lemma InsertionFailsOtherwise(s: Tables, tt: Time, command: CommandKey, commandId: Id, actor: Agent, repository: Id, overlaps: seq<Overlap>, input: Coordination.StartInput)
    ensures var r := Coordination.StartUnopposed(s, tt, command, commandId, actor, repository, overlaps, input); r.Err? ==> !r.error.ScopeConflict?
  {
    hide Coordination.InsertClaims, Coordination.Consecutive, Coordination.HasBlocking, Complete, AppendEvent;
    ClaimsAreNoConflict(Coordination.InsertIntent(s, Intent(input.title, input.baseRevision, actor, Active, None, 1, None)),
                        tt, s.nextId, input.session, repository, input.scopes);
  }

  lemma {:induction false} ClaimsAreNoConflict(t: Tables, tt: Time, intent: Id, session: Id, repository: Id, scopes: seq<Scopes.Scope>)
    ensures var r := Coordination.InsertClaims(t, tt, intent, session, repository, scopes); r.Err? ==> !r.error.ScopeConflict?
  {
    hide Coordination.ResourceTaken;
    if scopes != [] {
      ClaimsAreNoConflict(t, tt, intent, session, repository, scopes[..|scopes| - 1]);
    }
  }

  lemma StartExactly(t: Tables, tt: Time, principal: Id, allowAll: bool, key: string, hash: Hash, input: Coordination.StartInput)
    requires Numbered(t) && ClaimsSound(t) && Idempotency.AllComplete(t) && forall s :: s in input.scopes ==> Scopes.NormalScope(s)
    ensures Coordination.StartEffect(t, tt, principal, allowAll, key, hash, input).Ok? <==>
      && Holds(t, tt, principal, allowAll, input.session)
      && if CommandKey(WorkStart, key) in t.commands then t.commands[CommandKey(WorkStart, key)].hash == hash
         else Startable(t, tt, input.scopes, input.allowOverlap)
  {
    hide Scopes.NormalScope, Contended, Coordination.ScopeOverlaps, Coordination.HasBlocking, Coordination.StartUnopposed, Numbered, ClaimsSound, Reserve;
    if && Holds(t, tt, principal, allowAll, input.session) && CommandKey(WorkStart, key) !in t.commands
       && !t.project.archived && t.project.root.Some? {
      FreshStart(t, tt, principal, allowAll, key, hash, input);
    }
  }

  lemma StartCommand(t: Tables, tt: Time, c: Command)
    requires c.StartWork? && Numbered(t) && ClaimsSound(t) && Idempotency.AllComplete(t)
    ensures Exec(t, tt, c).Ok? <==> Admitted(t, tt, c)
  {
    Guarantees.StartIsExec(t, tt, c);
    hide Exec, Scopes.NormalizeScopes, Scopes.NormalScope, Coordination.StartEffect, Startable, Holds, Numbered, ClaimsSound, Idempotency.AllComplete;
    if Scopes.NormalizeScopes(c.request.scopes).Ok? {
      Scopes.NormalForm(c.request.scopes);
      StartExactly(t, tt, c.principal, c.allowAll, c.key, c.hash, Coordination.WithScopes(c.request, Scopes.NormalizeScopes(c.request.scopes).value));
    }
  }

  // ---- handoff.offer ----

  lemma OfferCommand(t: Tables, tt: Time, c: Command)
    requires c.OfferHandoff? && Numbered(t) && HandoffProtocol.OneOfferEach(t.handoffs) && Idempotency.AllComplete(t)
    ensures Exec(t, tt, c).Ok? <==> Admitted(t, tt, c)
  {
    var asked := LazyExpiry.Offer(c.principal, c.allowAll, c.intent, c.key, c.hash, c.known, c.offer);
    OfferIsExec(t, tt, c);
    hide Exec, LazyExpiry.Run, Handoffs.LinkRecords, HandoffProtocol.OneOfferEach;
    LazyExpiry.OfferWrites(t, tt, asked);
    Handoffs.LinkRecordsExact(c.known, c.offer.records);
    StandingOffers(t, tt, c.intent);
    hide LazyExpiry.StillOffered;
  }

  lemma OfferIsExec(t: Tables, tt: Time, c: Command)
    requires c.OfferHandoff?
    ensures Exec(t, tt, c) == LazyExpiry.Run(t, tt, LazyExpiry.Offer(c.principal, c.allowAll, c.intent, c.key, c.hash, c.known, c.offer))
  {
    hide Handoffs.OfferEffect;
  }

  lemma StandingOffers(t: Tables, tt: Time, intent: Id)
    ensures LazyExpiry.StillOffered(t.handoffs, intent, tt) <==>
      !(forall id: Id :: id in t.handoffs && t.handoffs[id].intent == intent && t.handoffs[id].status == Offered ==> t.handoffs[id].expiresAt <= tt)
  {
    if id: Id :| id in t.handoffs && t.handoffs[id].intent == intent && t.handoffs[id].status == Offered && t.handoffs[id].expiresAt > tt {
      assert HandoffProtocol.OpenOffer(t.handoffs, id);
    }
  }

  // ---- Attaching a repository ----

  /** The query for the row to link picks the chosen one. */
  lemma {:induction false} FindsTheChosen(t: Tables, github: int, provider: ProjectRepositories.Provider, n: nat)
    ensures var found := ProjectRepositories.FindExisting(t, github, provider, n);
      && (found.Some? ==> IsProvider(t, github, provider, found.value))
      && (found.Some? ==> forall other: Id :: other < n && IsProvider(t, github, provider, other) && other != found.value ==>
            if t.repositories[found.value].github.Some? == t.repositories[other].github.Some? then found.value < other
            else t.repositories[found.value].github.Some?)
      && (found.None? ==> forall id: Id :: id < n ==> !IsProvider(t, github, provider, id))
  {
    hide Text.ToLower;
    if n > 0 {
      FindsTheChosen(t, github, provider, n - 1);
    }
  }

  lemma LinkCommand(t: Tables, tt: Time, c: Command)
    requires c.AttachRepository? && Numbered(t)
    ensures Exec(t, tt, c).Ok? <==> Admitted(t, tt, c)
  {
    hide Text.ToLower, ProjectRepositories.FindExisting, ProjectRepositories.LinkOrInsert, ProjectRepositories.PlaceRepository;
    if c.provider.Some? {
      FindsTheChosen(t, c.attach.github, c.provider.value, t.nextId);
      OneIsChosen(t, c.attach.github, c.provider.value);
    }
  }

  lemma OneIsChosen(t: Tables, github: int, provider: ProjectRepositories.Provider)
    requires Numbered(t)
    ensures forall id: Id :: Chosen(t, github, provider, id) <==> ProjectRepositories.FindExisting(t, github, provider, t.nextId) == Some(id)
  {
    hide Text.ToLower, ProjectRepositories.FindExisting;
    FindsTheChosen(t, github, provider, t.nextId);
    assert forall id: Id :: IsProvider(t, github, provider, id) ==> id < t.nextId;
  }

  // ---- Every command ----

  lemma AdmittedExactly(t: Tables, tt: Time, c: Command)
    requires Invariant(t)
    ensures Exec(t, tt, c).Ok? <==> Admitted(t, tt, c)
  {
    hide Exec, Admitted, WorktreesSound, OneWorktreeEach, IntentsSound, Log.LogSound, History.PacksPlaced, HandoffProtocol.RowsSound, Canonical.CanonSound,
      Numbered, ClaimsSound, HandoffProtocol.OneOfferEach, Idempotency.AllComplete;
    if MovesSessions(c) { SessionCommands(t, tt, c); }
    else if c.StartWork? { StartCommand(t, tt, c); }
    else if c.AttachWorkspace? { AttachCommand(t, tt, c); }
    else if c.OfferHandoff? { OfferCommand(t, tt, c); }
    else if c.AttachRepository? { LinkCommand(t, tt, c); }
    else { PlainCommands(t, tt, c); }
  }

  /** In every reachable state a command succeeds if and only if it is admitted. */
  lemma CommandsSucceedExactly(revision: Option<string>, root: Option<Projects.RootInput>, steps: seq<Step>, n: nat, tt: Time, c: Command)
    requires n <= |steps|
    ensures Exec(At(revision, root, steps, n), tt, c).Ok? <==> Admitted(At(revision, root, steps, n), tt, c)
  {
    hide At, Exec, Admitted, Invariant;
    ReachableIsSound(revision, root, steps, n);
    AdmittedExactly(At(revision, root, steps, n), tt, c);
  }

  // ---- Refusals ----

  /** How a command that is not admitted is refused. Where several reasons apply, the first one counts. */
  function Refusal(t: Tables, tt: Time, c: Command): Option<Error>
  {
    match c
    case UpdateStatus(principal, allowAll, intent, key, hash, change) =>
      if intent !in t.intents then Some(NotFound)
      else if !HoldsFor(t, tt, principal, allowAll, change.session, intent) then Some(Forbidden)
      else if CommandKey(IntentStatusChange, key) in t.commands then Reused(t, CommandKey(IntentStatusChange, key), hash)
      else if t.intents[intent].version != change.expectedVersion then Some(VersionConflict)
      else if !Moves(t.intents[intent].status, change.status) then Some(InvalidTransition)
      else None
    case AnswerHandoff(principal, allowAll, intent, handoff, key, hash, answer) =>
      if handoff !in t.handoffs || t.handoffs[handoff].intent != intent || intent !in t.intents then Some(NotFound)
      else if !Holds(t, tt, principal, allowAll, answer.session) then Some(Forbidden)
      else if CommandKey(HandoffStatusChange, key) in t.commands then Reused(t, CommandKey(HandoffStatusChange, key), hash)
      else if answer.expectedVersion != t.handoffs[handoff].version then Some(VersionConflict)
      else if t.handoffs[handoff].status != Offered || t.handoffs[handoff].expiresAt <= tt then Some(InvalidHandoffStatus)
      else if Answerable(t, tt, allowAll, handoff, answer) then None
      else Some(if answer.answer.Withdraw? then Forbidden else OwnHandoff)
    case CompileContext(principal, allowAll, activeActor, key, hash, compile) =>
      if !(if compile.session.Some? then Holds(t, tt, principal, allowAll, compile.session.value) else activeActor) then Some(Forbidden)
      else if compile.intent !in t.intents then Some(NotFound)
      else if CommandKey(ContextCompile, key) in t.commands then Reused(t, CommandKey(ContextCompile, key), hash)
      else None
    case ApplySnapshot(repository, syncKey, _) =>
      if syncKey.Manual? && CommandKey(CommandType.RepositorySync, syncKey.key) in t.commands
      then Reused(t, CommandKey(CommandType.RepositorySync, syncKey.key), syncKey.hash)
      else if t.project.archived || !ActiveRepository(t, repository) then Some(RepositoryUnavailable)
      else None
    case _ => None
  }

  /** A key on record answers its own digest and refuses any other. */
  function Reused(t: Tables, key: CommandKey, hash: Hash): Option<Error>
    requires key in t.commands
  {
    if t.commands[key].hash == hash then None else Some(IdempotencyConflict)
  }

  lemma RefusedFor(t: Tables, tt: Time, c: Command)
    requires Idempotency.AllComplete(t) && (c.UpdateStatus? || c.AnswerHandoff? || c.CompileContext? || c.ApplySnapshot?)
    ensures match Refusal(t, tt, c) case None => Exec(t, tt, c).Ok? case Some(error) => Exec(t, tt, c) == Err(error)
  {
    hide Coordination.MoveIntent, Handoffs.StoreAnswer, ContextPacks.StorePack, RepositorySync.StoreSnapshot, RepositorySync.SnapshotChanges;
  }

  /** Starting, attaching and offering: a session that may not act is Forbidden, another digest under the key
      a conflict, a second live worktree WorkspaceExists, a standing offer HandoffExists. */
  lemma ActingRefusedFor(t: Tables, tt: Time, c: Command)
    requires Idempotency.AllComplete(t) && Numbered(t) && HandoffProtocol.OneOfferEach(t.handoffs)
    ensures c.StartWork? && Scopes.NormalizeScopes(c.request.scopes).Ok? && !Holds(t, tt, c.principal, c.allowAll, c.request.session) ==>
      Exec(t, tt, c) == Err(Forbidden)
    ensures (c.AttachWorkspace? && c.intent in t.intents && !Finished(t.intents[c.intent].status) && t.project.root.Some?
      && !HoldsFor(t, tt, c.principal, c.allowAll, c.workspace.session, c.intent)) ==> Exec(t, tt, c) == Err(Forbidden)
    ensures (c.OfferHandoff? && c.intent in t.intents && t.intents[c.intent].status !in {Cancelled, Abandoned}
      && !HoldsFor(t, tt, c.principal, c.allowAll, c.offer.session, c.intent)) ==> Exec(t, tt, c) == Err(Forbidden)
    ensures ((c.StartWork? || c.AttachWorkspace? || c.OfferHandoff?) && Allowed(t, tt, c) && KeyOf(c).value in t.commands
      && t.commands[KeyOf(c).value].hash != HashOf(c)) ==> Exec(t, tt, c) == Err(IdempotencyConflict)
    ensures c.AttachWorkspace? && Allowed(t, tt, c) && KeyOf(c).value !in t.commands && !Possible(t, tt, c) ==> Exec(t, tt, c) == Err(WorkspaceExists)
    ensures (c.OfferHandoff? && Allowed(t, tt, c) && KeyOf(c).value !in t.commands && c.offer.hours >= 1
      && LazyExpiry.StillOffered(t.handoffs, c.intent, tt)) ==> Exec(t, tt, c) == Err(HandoffExists)
  {
    if c.StartWork? { StartRefusedFor(t, tt, c); }
    else if c.AttachWorkspace? { AttachRefusedFor(t, tt, c); }
    else if c.OfferHandoff? { OfferRefusedFor(t, tt, c); }
    hide Exec, Allowed, Possible;
  }

  lemma StartRefusedFor(t: Tables, tt: Time, c: Command)
    requires c.StartWork?
    ensures Scopes.NormalizeScopes(c.request.scopes).Ok? && !Holds(t, tt, c.principal, c.allowAll, c.request.session) ==> Exec(t, tt, c) == Err(Forbidden)
    ensures Allowed(t, tt, c) && KeyOf(c).value in t.commands && t.commands[KeyOf(c).value].hash != HashOf(c) ==> Exec(t, tt, c) == Err(IdempotencyConflict)
  {
    Guarantees.StartIsExec(t, tt, c);
    hide Exec, Scopes.NormalizeScopes, Coordination.ScopeOverlaps, Coordination.HasBlocking, Coordination.StartUnopposed;
  }

  lemma AttachRefusedFor(t: Tables, tt: Time, c: Command)
    requires c.AttachWorkspace?
    ensures (c.intent in t.intents && !Finished(t.intents[c.intent].status) && t.project.root.Some?
      && !HoldsFor(t, tt, c.principal, c.allowAll, c.workspace.session, c.intent)) ==> Exec(t, tt, c) == Err(Forbidden)
    ensures Allowed(t, tt, c) && KeyOf(c).value in t.commands && t.commands[KeyOf(c).value].hash != HashOf(c) ==> Exec(t, tt, c) == Err(IdempotencyConflict)
    ensures Allowed(t, tt, c) && KeyOf(c).value !in t.commands && !Possible(t, tt, c) ==> Exec(t, tt, c) == Err(WorkspaceExists)
  {
    hide Coordination.InsertWorktree;
  }

  lemma OfferRefusedFor(t: Tables, tt: Time, c: Command)
    requires c.OfferHandoff? && Numbered(t) && HandoffProtocol.OneOfferEach(t.handoffs)
    ensures (c.intent in t.intents && t.intents[c.intent].status !in {Cancelled, Abandoned}
      && !HoldsFor(t, tt, c.principal, c.allowAll, c.offer.session, c.intent)) ==> Exec(t, tt, c) == Err(Forbidden)
    ensures Allowed(t, tt, c) && KeyOf(c).value in t.commands && t.commands[KeyOf(c).value].hash != HashOf(c) ==> Exec(t, tt, c) == Err(IdempotencyConflict)
    ensures Allowed(t, tt, c) && KeyOf(c).value !in t.commands && c.offer.hours >= 1 && LazyExpiry.StillOffered(t.handoffs, c.intent, tt) ==>
      Exec(t, tt, c) == Err(HandoffExists)
  {
    var command := CommandKey(HandoffOffer, c.key);
    ReserveFrame(t, command, c.hash);
    LazyExpiry.ExpiryClearsTheWay(Reserve(t, command, c.hash), tt, c.intent, t.nextId);
    hide Handoffs.ExpireLapsed, Handoffs.HasOffer, Handoffs.LinkRecords, Handoffs.InsertOffer, LazyExpiry.StillOffered, Reserve;
  }
}
