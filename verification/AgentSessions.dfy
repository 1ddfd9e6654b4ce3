/** Agent sessions: start, heartbeat, close, and the repository observations they report. */
module AgentSessions {
  import opened Wrappers
  import opened Tables
  import opened Commands

  datatype ObservationInput = ObservationInput(worktree: Option<Id>, dirty: bool, fingerprint: string, head: string)

  // ---- Session start ----

  function ExpirePredecessors(sessions: map<Id, Session>, actor: Agent, node: string): map<Id, Session>
  {
    map id | id in sessions ::
      var row := sessions[id];
      if row.actor == actor && row.node == node && OpenSession(row.status) then row.(status := SessionExpired) else row
  }

  function SessionStartEffect(t: Tables, tt: Time, principal: Id, agentType: string, node: string, observesGit: bool): Result<Effect, Error>
  {
    if t.project.archived then Err(NotFound)
    else
      var actor := Agent(principal, agentType);
      var row := Session(actor, node, SessionActive, observesGit, tt, tt, tt + SESSION_TTL);
      var id := t.nextId;
      Ok(Effect(t.(sessions := ExpirePredecessors(t.sessions, actor, node)[id := row], nextId := id + 1), SessionRow(id, row), false))
  }

  // ---- Heartbeat ----

  predicate OwnsClaim(claim: Claim, session: Id)
  {
    claim.session == session && claim.status.ClaimActive?
  }

  function RenewClaims(claims: map<Id, Claim>, session: Id, tt: Time): map<Id, Claim>
  {
    map id | id in claims ::
      if OwnsClaim(claims[id], session) then claims[id].(renewedAt := tt, expiresAt := tt + SCOPE_LEASE) else claims[id]
  }

  /** The lease-order constraint on claims: a renewal must not precede the claim. */
  predicate RenewalInOrder(claims: map<Id, Claim>, session: Id, tt: Time)
  {
    forall id :: id in claims && OwnsClaim(claims[id], session) ==> claims[id].createdAt <= tt
  }

  function BeatRow(row: Session, tt: Time): Session
  {
    row.(lastSeenAt := tt, expiresAt := tt + SESSION_TTL)
  }

  function HeartbeatEffect(t: Tables, tt: Time, principal: Id, allowAll: bool, session: Id): Result<Effect, Error>
  {
    if || session !in t.sessions
       || !t.sessions[session].status.SessionActive?
       || !(allowAll || t.sessions[session].actor.sponsor == principal)
    then Err(NotFound)
    else if tt < t.sessions[session].startedAt || !RenewalInOrder(t.claims, session, tt) then Err(ConstraintViolation)
    else
      var row := BeatRow(t.sessions[session], tt);
      Ok(Effect(t.(sessions := t.sessions[session := row], claims := RenewClaims(t.claims, session, tt)), SessionRow(session, row), false))
  }

  // ---- Close ----

  function ReleaseSession(claims: map<Id, Claim>, session: Id): map<Id, Claim>
  {
    map id | id in claims :: if OwnsClaim(claims[id], session) then claims[id].(status := Released) else claims[id]
  }

  /** The time-order constraint on sessions demands started_at <= last_seen_at <= expires_at, and a
      close sets last_seen_at without moving expires_at: a lapsed session cannot be closed. */
  function CloseEffect(t: Tables, tt: Time, principal: Id, allowAll: bool, session: Id): Result<Effect, Error>
  {
    if || session !in t.sessions
       || !OpenSession(t.sessions[session].status)
       || !(allowAll || t.sessions[session].actor.sponsor == principal)
    then Err(NotFound)
    else if !(t.sessions[session].startedAt <= tt <= t.sessions[session].expiresAt) then Err(ConstraintViolation)
    else
      var row := t.sessions[session].(status := Closed, lastSeenAt := tt);
      Ok(Effect(t.(sessions := t.sessions[session := row], claims := ReleaseSession(t.claims, session)), NoContent, false))
  }

  // ---- Observe ----

  predicate MayObserve(t: Tables, tt: Time, principal: Id, session: Id, worktree: Option<Id>)
  {
    && session in t.sessions
    && t.sessions[session].actor.sponsor == principal
    && t.sessions[session].status.SessionActive?
    && t.sessions[session].expiresAt > tt
    && t.sessions[session].observesGit
    && (worktree.Some? ==>
          && worktree.value in t.worktrees
          && t.worktrees[worktree.value].session == session
          && LiveWorktree(t.worktrees[worktree.value].status))
  }

  /** Which event, if any, an observation gives rise to. */
  function Noteworthy(previous: Option<Observation>, input: ObservationInput): Option<ObservationKind>
  {
    var diffChanged := input.dirty && (previous.None? || !previous.value.dirty || previous.value.fingerprint != input.fingerprint);
    var headChanged := previous.Some? && input.head != "" && previous.value.head != Some(input.head);
    if diffChanged then Some(DiffUpdated)
    else if headChanged then Some(if input.worktree.Some? then HeadUpdated else ExternalChange)
    else None
  }

  function ObservationRow(previous: Option<Observation>, session: Id, input: ObservationInput): Observation
  {
    Observation(session, input.worktree, input.dirty, input.fingerprint,
                if input.head == "" then None else Some(input.head),
                if previous.Some? then previous.value.version + 1 else 1)
  }

  function PreviousObservation(t: Tables, session: Id, worktree: Option<Id>): Option<Observation>
  {
    if (session, worktree) in t.observations then Some(t.observations[(session, worktree)]) else None
  }

  function StoreObservation(t: Tables, command: CommandKey, hash: Hash, session: Id, input: ObservationInput): Effect
  {
    var reserved := Reserve(t, command, hash);
    var previous := PreviousObservation(t, session, input.worktree);
    var row := ObservationRow(previous, session, input);
    var kind := Noteworthy(previous, input);
    var stored := reserved.(observations := t.observations[(session, input.worktree) := row]);
    var logged :=
      if kind.Some?
      then AppendEvent(stored, ObservationAggregate(session, input.worktree), row.version, t.nextId, ObservationNoted(kind.value))
      else stored;
    var response := Observed(row, kind);
    Effect(Complete(logged, command, response), response, false)
  }

  function ObserveEffect(t: Tables, tt: Time, principal: Id, session: Id, key: string, hash: Hash, input: ObservationInput): Result<Effect, Error>
  {
    var command := CommandKey(RepositoryObserve, key);
    if !MayObserve(t, tt, principal, session, input.worktree) then Err(NotFound)
    else
      var stored :- Lookup(t, command, hash);
      if stored.Some? then Ok(Replay(t, stored.value)) else Ok(StoreObservation(t, command, hash, session, input))
  }

  /** A fresh observation, table by table. */
  ghost predicate Noted(t: Tables, session: Id, key: string, hash: Hash, input: ObservationInput, e: Effect)
  {
    var r := e.tables;
    var previous := PreviousObservation(t, session, input.worktree);
    var row := ObservationRow(previous, session, input);
    var kind := Noteworthy(previous, input);
    && r.observations == t.observations[(session, input.worktree) := row]
    && r.sessions == t.sessions
    && SameWork(t, r) && SameHandoffs(t, r) && SamePacks(t, r) && SameCanon(t, r)
    && r.nextId == t.nextId + 1
    && Records(t, r, CommandKey(RepositoryObserve, key), hash, e.response)
    && e.response == Observed(row, kind)
    && if kind.Some?
       then Logs(t, r, ObservationAggregate(session, input.worktree), row.version, t.nextId, ObservationNoted(kind.value))
       else Quiet(t, r)
  }

  lemma StoreObservationDelta(t: Tables, key: string, hash: Hash, session: Id, input: ObservationInput)
    requires CommandKey(RepositoryObserve, key) !in t.commands
    ensures var e := StoreObservation(t, CommandKey(RepositoryObserve, key), hash, session, input);
      !e.replayed && Noted(t, session, key, hash, input, e)
  {
    hide PreviousObservation, ObservationRow, Noteworthy, Reserve, Complete, AppendEvent;
    var command := CommandKey(RepositoryObserve, key);
    var reserved := Reserve(t, command, hash);
    ReserveFrame(t, command, hash);
    var previous := PreviousObservation(t, session, input.worktree);
    var row := ObservationRow(previous, session, input);
    var kind := Noteworthy(previous, input);
    var stored := reserved.(observations := t.observations[(session, input.worktree) := row]);
    if kind.Some? {
      AppendFrame(stored, ObservationAggregate(session, input.worktree), row.version, t.nextId, ObservationNoted(kind.value));
      var logged := AppendEvent(stored, ObservationAggregate(session, input.worktree), row.version, t.nextId, ObservationNoted(kind.value));
      CompleteFrame(logged, command, Observed(row, kind));
    } else {
      CompleteFrame(stored, command, Observed(row, kind));
    }
  }

  lemma ObserveDelta(t: Tables, tt: Time, principal: Id, session: Id, key: string, hash: Hash, input: ObservationInput)
    requires ObserveEffect(t, tt, principal, session, key, hash, input).Ok?
    ensures var e := ObserveEffect(t, tt, principal, session, key, hash, input).value;
      if e.replayed then Repeats(t, e, CommandKey(RepositoryObserve, key), hash) else Noted(t, session, key, hash, input, e)
  {
    hide PreviousObservation, ObservationRow, Noteworthy, MayObserve, StoreObservation, Noted;
    if CommandKey(RepositoryObserve, key) !in t.commands {
      StoreObservationDelta(t, key, hash, session, input);
    }
  }

  /** Reporting the same state twice in a row is noted at most once. */
  lemma SameObservationIsSilent(t: Tables, key: string, hash: Hash, session: Id, input: ObservationInput)
    requires CommandKey(RepositoryObserve, key) !in t.commands
    ensures var r := StoreObservation(t, CommandKey(RepositoryObserve, key), hash, session, input).tables;
      Noteworthy(PreviousObservation(r, session, input.worktree), input).None?
  {
    StoreObservationDelta(t, key, hash, session, input);
    hide StoreObservation;
  }

  /** What each kind of note means: changed content, a moved head inside the session's worktree, or a
      moved head outside of any. A first observation never notes a moved head. */
  lemma NotesMeanWhatTheySay(previous: Option<Observation>, input: ObservationInput)
    ensures Noteworthy(previous, input) == Some(DiffUpdated) <==>
      input.dirty && (previous.Some? && previous.value.dirty ==> previous.value.fingerprint != input.fingerprint)
    ensures Noteworthy(previous, input) == Some(HeadUpdated) ==> input.worktree.Some? && MovedHead(previous, input)
    ensures Noteworthy(previous, input) == Some(ExternalChange) ==> input.worktree.None? && MovedHead(previous, input)
    ensures Noteworthy(previous, input).None? ==> !MovedHead(previous, input)
  {
  }

  predicate MovedHead(previous: Option<Observation>, input: ObservationInput)
  {
    previous.Some? && input.head != "" && previous.value.head != Some(input.head)
  }

  /** LEAST and GREATEST keep last_seen_at within the time-order constraint. */
  function CloseSponsored(sessions: map<Id, Session>, tt: Time, sponsor: Id): map<Id, Session>
  {
    map id | id in sessions ::
      var row := sessions[id];
      if row.actor.sponsor == sponsor && OpenSession(row.status)
      then row.(status := Closed, lastSeenAt := if tt < row.startedAt then row.startedAt else if tt > row.expiresAt then row.expiresAt else tt)
      else row
  }

  /** An account that is suspended loses its open sessions; their claims are left to lapse. */
  function RevokeSponsorEffect(t: Tables, tt: Time, sponsor: Id): Tables
  {
    t.(sessions := CloseSponsored(t.sessions, tt, sponsor))
  }

  /** started_at <= last_seen_at <= expires_at, for every session. */
  ghost predicate TimesInOrder(sessions: map<Id, Session>)
  {
    forall id: Id :: id in sessions ==> sessions[id].startedAt <= sessions[id].lastSeenAt <= sessions[id].expiresAt
  }

  /** After a suspension no open session of the sponsor is left, no other session has changed, the
      constraint on times still holds, and claims and everything else are as they were. */
  lemma RevocationMeans(t: Tables, tt: Time, sponsor: Id)
    ensures var r := RevokeSponsorEffect(t, tt, sponsor);
      && r.sessions.Keys == t.sessions.Keys
      && (forall id: Id :: id in r.sessions && r.sessions[id].actor.sponsor == sponsor ==> !OpenSession(r.sessions[id].status))
      && (forall id: Id :: id in t.sessions && (t.sessions[id].actor.sponsor != sponsor || !OpenSession(t.sessions[id].status)) ==>
            r.sessions[id] == t.sessions[id])
      && (TimesInOrder(t.sessions) ==> TimesInOrder(r.sessions))
      && r == t.(sessions := r.sessions)
  {
  }

  class PostgresRepository {
    const pool: Pool

    constructor (pool: Pool)
      ensures this.pool == pool
    {
      this.pool := pool;
    }

    method Start(tt: Time, principal: Id, agentType: string, node: string, observesGit: bool) returns (outcome: Outcome)
      modifies pool
      ensures Settled(old(pool.tables), pool.tables, outcome, SessionStartEffect(old(pool.tables), tt, principal, agentType, node, observesGit))
    {
      var tx := pool.tables;
      if tx.project.archived {
        return Failed(NotFound);
      }
      var actor := Agent(principal, agentType);
      tx := tx.(sessions := ExpirePredecessors(tx.sessions, actor, node));
      var id := tx.nextId;
      var row := Session(actor, node, SessionActive, observesGit, tt, tt, tt + SESSION_TTL);
      tx := tx.(sessions := tx.sessions[id := row], nextId := id + 1);
      pool.tables := tx;
      return Done(SessionRow(id, row), false);
    }

    method Heartbeat(tt: Time, principal: Id, allowAll: bool, session: Id) returns (outcome: Outcome)
      modifies pool
      ensures Settled(old(pool.tables), pool.tables, outcome, HeartbeatEffect(old(pool.tables), tt, principal, allowAll, session))
    {
      var tx := pool.tables;
      if session !in tx.sessions || !tx.sessions[session].status.SessionActive? {
        return Failed(NotFound);
      }
      if !allowAll && tx.sessions[session].actor.sponsor != principal {
        return Failed(NotFound);
      }
      if tt < tx.sessions[session].startedAt {
        return Failed(ConstraintViolation);
      }
      var row := BeatRow(tx.sessions[session], tt);
      tx := tx.(sessions := tx.sessions[session := row]);
      if !RenewalInOrder(tx.claims, session, tt) {
        return Failed(ConstraintViolation);
      }
      tx := tx.(claims := RenewClaims(tx.claims, session, tt));
      pool.tables := tx;
      return Done(SessionRow(session, row), false);
    }

    method Close(tt: Time, principal: Id, allowAll: bool, session: Id) returns (outcome: Outcome)
      modifies pool
      ensures Settled(old(pool.tables), pool.tables, outcome, CloseEffect(old(pool.tables), tt, principal, allowAll, session))
    {
      var tx := pool.tables;
      if session !in tx.sessions || !OpenSession(tx.sessions[session].status) {
        return Failed(NotFound);
      }
      if !allowAll && tx.sessions[session].actor.sponsor != principal {
        return Failed(NotFound);
      }
      var row := tx.sessions[session].(status := Closed, lastSeenAt := tt);
      if row.lastSeenAt < row.startedAt || row.lastSeenAt > row.expiresAt {
        return Failed(ConstraintViolation);
      }
      tx := tx.(sessions := tx.sessions[session := row]);
      tx := tx.(claims := ReleaseSession(tx.claims, session));
      pool.tables := tx;
      return Done(NoContent, false);
    }

    method RevokeSponsor(tt: Time, sponsor: Id) returns (outcome: Outcome)
      modifies pool
      ensures pool.tables == RevokeSponsorEffect(old(pool.tables), tt, sponsor) && outcome == Done(NoContent, false)
      ensures forall id: Id :: id in pool.tables.sessions && pool.tables.sessions[id].actor.sponsor == sponsor ==>
        !OpenSession(pool.tables.sessions[id].status)
      ensures TimesInOrder(old(pool.tables.sessions)) ==> TimesInOrder(pool.tables.sessions)
      ensures pool.tables.claims == old(pool.tables.claims)
    {
      RevocationMeans(pool.tables, tt, sponsor);
      var tx := pool.tables;
      tx := tx.(sessions := CloseSponsored(tx.sessions, tt, sponsor));
      pool.tables := tx;
      return Done(NoContent, false);
    }

    method Observe(tt: Time, principal: Id, session: Id, key: string, hash: Hash, input: ObservationInput) returns (outcome: Outcome)
      modifies pool
      ensures Settled(old(pool.tables), pool.tables, outcome, ObserveEffect(old(pool.tables), tt, principal, session, key, hash, input))
    {
      var tx := pool.tables;
      var command := CommandKey(RepositoryObserve, key);
      if !MayObserve(tx, tt, principal, session, input.worktree) {
        return Failed(NotFound);
      }
      var stored := Lookup(tx, command, hash);
      if stored.Err? {
        return Failed(stored.error);
      }
      if stored.value.Some? {
        return Done(stored.value.value, true);
      }
      var commandId := tx.nextId;
      tx := Reserve(tx, command, hash);
      var previous := PreviousObservation(tx, session, input.worktree);
      var row := ObservationRow(previous, session, input);
      tx := tx.(observations := tx.observations[(session, input.worktree) := row]);
      var kind := Noteworthy(previous, input);
      if kind.Some? {
        tx := AppendEvent(tx, ObservationAggregate(session, input.worktree), row.version, commandId, ObservationNoted(kind.value));
      }
      var response := Observed(row, kind);
      tx := Complete(tx, command, response);
      pool.tables := tx;
      return Done(response, false);
    }
  }

  /** Closing works exactly while the lease runs: the constraint turns every later attempt away. */
  lemma CloseNeedsRunningLease(t: Tables, tt: Time, principal: Id, session: Id)
    requires session in t.sessions && OpenSession(t.sessions[session].status)
    requires t.sessions[session].startedAt <= tt
    ensures CloseEffect(t, tt, principal, true, session).Ok? <==> tt <= t.sessions[session].expiresAt
  {
  }
}
