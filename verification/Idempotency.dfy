/** Commands happen exactly once. */
module Idempotency {
  import opened Wrappers
  import opened Tables
  import opened Commands
  import opened Server
  import opened Frames
  import Coordination
  import Scopes
  import AgentSessions
  import Handoffs
  import ContextPacks
  import RepositorySync
  import ProjectRepositories

  /** Every committed idempotency record is complete. */
  ghost predicate AllComplete(t: Tables)
  {
    forall k :: k in t.commands ==> t.commands[k].body.Some?
  }

  /** No record is ever changed or removed. */
  ghost predicate RecordsStay(t: Tables, r: Tables)
  {
    forall k :: k in t.commands ==> k in r.commands && r.commands[k] == t.commands[k]
  }

  /** A first success leaves the complete record of its own key, and no other. */
  ghost predicate RecordLeft(t: Tables, c: Command, e: Effect)
  {
    match KeyOf(c)
    case None => e.tables.commands == t.commands
    case Some(k) =>
      && k !in t.commands
      && k in e.tables.commands
      && e.tables.commands[k].hash == HashOf(c)
      && e.tables.commands[k].body == Some(e.response)
      && e.tables.commands == t.commands[k := e.tables.commands[k]]
  }

  lemma FirstSuccess(t: Tables, tt: Time, c: Command, e: Effect)
    requires Fresh(t, tt, c, e)
    ensures RecordLeft(t, c, e)
  {
    if MovesSessions(c) { BySession(t, tt, c, e); }
    else if c.OfferHandoff? { ByOffer(t, tt, c.intent, c.key, c.hash, c.offer, e); }
    else if MovesCanon(c) { ByCanon(t, tt, c, e); }
    else { ByWork(t, tt, c, e); }
  }

  lemma BySession(t: Tables, tt: Time, c: Command, e: Effect)
    requires Fresh(t, tt, c, e) && MovesSessions(c)
    ensures RecordLeft(t, c, e)
  {
    hide AgentSessions.ExpirePredecessors, AgentSessions.RenewClaims, AgentSessions.RenewalInOrder, AgentSessions.ReleaseSession,
      AgentSessions.CloseSponsored;
  }

  lemma ByOffer(t: Tables, tt: Time, intent: Id, key: string, hash: Hash, input: Handoffs.OfferInput, e: Effect)
    requires Handoffs.OfferMade(t, tt, intent, key, hash, input, e)
    ensures var k := CommandKey(HandoffOffer, key);
      && k !in t.commands
      && e.tables.commands == t.commands[k := CommandRecord(hash, t.nextId, Some(e.response))]
  {
    hide Handoffs.ExpireLapsed, Handoffs.LapsedOffer, Handoffs.HasOffer, Reserve;
    ReserveFrame(t, CommandKey(HandoffOffer, key), hash);
  }

  lemma ByCanon(t: Tables, tt: Time, c: Command, e: Effect)
    requires Fresh(t, tt, c, e) && MovesCanon(c)
    ensures RecordLeft(t, c, e)
  {
    hide RepositorySync.Stored, RepositorySync.SnapshotChanges, RepositorySync.FailureChanges, RepositorySync.FailedState, ProjectRepositories.LinkOrInsert;
  }

  lemma ByWork(t: Tables, tt: Time, c: Command, e: Effect)
    requires Fresh(t, tt, c, e) && !MovesSessions(c) && !MovesCanon(c) && !c.OfferHandoff?
    ensures RecordLeft(t, c, e)
  {
    hide Scopes.NormalizeScopes, Scopes.NormalScope, Coordination.Reserved, Coordination.StartLogged, Coordination.StartAnswered, Coordination.MoveRow,
      Coordination.HasLiveWorktree, Handoffs.AnswerRefusal, Handoffs.AnswerRow;
  }

  // ---- ErrCommandIncomplete is never answered ----

  lemma {:induction false} ClaimsFailOtherwise(t: Tables, tt: Time, intent: Id, session: Id, repository: Id, scopes: seq<Scopes.Scope>)
    ensures Coordination.InsertClaims(t, tt, intent, session, repository, scopes) != Err(CommandIncomplete)
  {
    hide Coordination.ResourceTaken;
    if scopes != [] {
      ClaimsFailOtherwise(t, tt, intent, session, repository, scopes[..|scopes| - 1]);
    }
  }

  lemma {:induction false} LinksFailOtherwise(known: set<Id>, records: seq<Id>)
    ensures Handoffs.LinkRecords(known, records) != Err(CommandIncomplete)
  {
    if records != [] {
      LinksFailOtherwise(known, records[..|records| - 1]);
    }
  }

  lemma StartIsNeverIncomplete(t: Tables, tt: Time, principal: Id, allowAll: bool, key: string, hash: Hash, request: Coordination.StartRequest)
    requires AllComplete(t)
    ensures Coordination.StartWorkEffect(t, tt, principal, allowAll, key, hash, request) != Err(CommandIncomplete)
  {
    hide Scopes.NormalizeScopes, Coordination.ScopeOverlaps, Coordination.HasBlocking, Coordination.InsertClaims;
    if Scopes.NormalizeScopes(request.scopes).Ok? && request.session in t.sessions && t.project.root.Some? {
      var reserved := Reserve(t, CommandKey(WorkStart, key), hash);
      var row := Intent(request.title, request.baseRevision, t.sessions[request.session].actor, Active, None, 1, None);
      ClaimsFailOtherwise(Coordination.InsertIntent(reserved, row), tt, reserved.nextId, request.session, t.project.root.value,
                          Scopes.NormalizeScopes(request.scopes).value);
    }
  }

  lemma OfferIsNeverIncomplete(
    t: Tables, tt: Time, principal: Id, allowAll: bool, intent: Id, key: string, hash: Hash, known: set<Id>, input: Handoffs.OfferInput)
    requires AllComplete(t)
    ensures Handoffs.OfferEffect(t, tt, principal, allowAll, intent, key, hash, known, input) != Err(CommandIncomplete)
  {
    hide Handoffs.ExpireLapsed, Handoffs.HasOffer, Handoffs.LinkRecords, Handoffs.InsertOffer;
    LinksFailOtherwise(known, input.records);
  }

  lemma NeverIncomplete(t: Tables, tt: Time, c: Command)
    requires AllComplete(t)
    ensures Exec(t, tt, c) != Err(CommandIncomplete)
  {
    if c.StartWork? {
      StartIsNeverIncomplete(t, tt, c.principal, c.allowAll, c.key, c.hash, c.request);
      hide Coordination.StartWorkEffect;
    } else if c.OfferHandoff? {
      OfferIsNeverIncomplete(t, tt, c.principal, c.allowAll, c.intent, c.key, c.hash, c.known, c.offer);
      hide Handoffs.OfferEffect;
    } else {
      hide Coordination.StartWorkEffect, Handoffs.OfferEffect, Coordination.InsertWorktree, Coordination.MoveIntent, Coordination.HasLiveWorktree,
        Handoffs.StoreAnswer, AgentSessions.StoreObservation, AgentSessions.MayObserve, AgentSessions.RenewalInOrder,
        ContextPacks.StorePack, RepositorySync.StoreSnapshot, RepositorySync.FailureChanges, RepositorySync.FailedState, ProjectRepositories.LinkOrInsert,
        ProjectRepositories.PlaceRepository;
    }
  }
}
