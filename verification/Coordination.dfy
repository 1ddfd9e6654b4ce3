/** work.start, workspace.attach and intent.status. */
module Coordination {
  import opened Wrappers
  import opened Scopes
  import opened Tables
  import opened Commands

  datatype StartInput = StartInput(
    session: Id, title: string, baseRevision: string, scopes: seq<Scope>, allowOverlap: bool)

  datatype WorkspaceInput = WorkspaceInput(session: Id, baseRevision: string)

  datatype StatusInput = StatusInput(session: Id, status: IntentStatus, expectedVersion: nat, summary: string)

  // ---- Overlap query ----

  /** A claim that the overlap query of a transaction started at tt sees. */
  predicate Reserving(t: Tables, tt: Time, repository: Id, id: Id)
  {
    && id in t.claims
    && t.claims[id].status.ClaimActive?
    && t.claims[id].expiresAt > tt
    && t.claims[id].repository == repository
    && t.claims[id].intent in t.intents
    && !IsTerminal(t.intents[t.claims[id].intent].status)
  }

  /** Places a row before the first later-created one; ids arrive in increasing order. */
  function InsertByCreation(t: Tables, rows: seq<Id>, id: Id): (r: seq<Id>)
    requires id in t.claims && forall row :: row in rows ==> row in t.claims
    ensures forall row :: row in r <==> row == id || row in rows
  {
    if rows == [] || t.claims[rows[|rows| - 1]].createdAt <= t.claims[id].createdAt then rows + [id]
    else
      assert rows == rows[..|rows| - 1] + [rows[|rows| - 1]];
      InsertByCreation(t, rows[..|rows| - 1], id) + [rows[|rows| - 1]]
  }

  /** The rows of the overlap query among the first n identifiers, ordered by creation time and id. */
  function ReservingRows(t: Tables, tt: Time, repository: Id, n: nat): (rows: seq<Id>)
    ensures forall id: Id :: id in rows <==> id < n && Reserving(t, tt, repository, id)
  {
    if n == 0 then []
    else
      var before := ReservingRows(t, tt, repository, n - 1);
      if Reserving(t, tt, repository, n - 1) then InsertByCreation(t, before, n - 1) else before
  }

  /** The ORDER BY of the overlap query: creation time, then identifier. */
  ghost predicate Precedes(t: Tables, a: Id, b: Id)
    requires a in t.claims && b in t.claims
  {
    || t.claims[a].createdAt < t.claims[b].createdAt
    || (t.claims[a].createdAt == t.claims[b].createdAt && a < b)
  }

  ghost predicate OrderedByCreation(t: Tables, rows: seq<Id>)
  {
    && (forall row :: row in rows ==> row in t.claims)
    && (forall i, j :: 0 <= i < j < |rows| ==> Precedes(t, rows[i], rows[j]))
  }

  lemma {:induction false} InsertKeepsOrder(t: Tables, rows: seq<Id>, id: Id)
    requires id in t.claims && forall row :: row in rows ==> row < id
    requires OrderedByCreation(t, rows)
    ensures OrderedByCreation(t, InsertByCreation(t, rows, id))
  {
    if rows != [] && t.claims[rows[|rows| - 1]].createdAt > t.claims[id].createdAt {
      var before, last := rows[..|rows| - 1], rows[|rows| - 1];
      assert rows == before + [last];
      InsertKeepsOrder(t, before, id);
      var inserted := InsertByCreation(t, before, id);
      forall row | row in inserted ensures Precedes(t, row, last) {
        if row != id {
          var k :| 0 <= k < |before| && before[k] == row;
          assert Precedes(t, rows[k], rows[|rows| - 1]);
        }
      }
      SnocKeepsOrder(t, inserted, last);
    } else if rows != [] {
      forall row | row in rows ensures Precedes(t, row, id) {
        var k :| 0 <= k < |rows| && rows[k] == row;
        assert k < |rows| - 1 ==> Precedes(t, rows[k], rows[|rows| - 1]);
      }
      SnocKeepsOrder(t, rows, id);
    }
  }

  lemma SnocKeepsOrder(t: Tables, rows: seq<Id>, last: Id)
    requires OrderedByCreation(t, rows) && last in t.claims
    requires forall row :: row in rows ==> Precedes(t, row, last)
    ensures OrderedByCreation(t, rows + [last])
  {
  }

  /** The overlap query answers in creation order, ties by identifier. */
  lemma {:induction false} ReservingRowsInOrder(t: Tables, tt: Time, repository: Id, n: nat)
    ensures OrderedByCreation(t, ReservingRows(t, tt, repository, n))
  {
    if n > 0 {
      ReservingRowsInOrder(t, tt, repository, n - 1);
      if Reserving(t, tt, repository, n - 1) {
        InsertKeepsOrder(t, ReservingRows(t, tt, repository, n - 1), n - 1);
      }
    }
  }

  function OverlapWith(t: Tables, candidate: Scope, id: Id): Overlap
    requires id in t.claims && t.claims[id].intent in t.intents
  {
    var claim := t.claims[id];
    var intent := t.intents[claim.intent];
    Overlap(candidate, id, claim.intent, intent.title, intent.status, intent.responsible, claim.scope,
            Blocking(candidate, claim.scope), ReasonFor(candidate, claim.scope), claim.expiresAt)
  }

  function OverlapsOfOne(t: Tables, candidate: Scope, rows: seq<Id>): (r: seq<Overlap>)
    requires forall id :: id in rows ==> id in t.claims && t.claims[id].intent in t.intents
    ensures forall o :: o in r <==> exists id :: id in rows && ScopesOverlap(candidate, t.claims[id].scope) && o == OverlapWith(t, candidate, id)
  {
    if rows == [] then []
    else
      var before := OverlapsOfOne(t, candidate, rows[..|rows| - 1]);
      var last := rows[|rows| - 1];
      assert rows == rows[..|rows| - 1] + [last];
      if ScopesOverlap(candidate, t.claims[last].scope) then before + [OverlapWith(t, candidate, last)] else before
  }

  function OverlapsOfAll(t: Tables, requested: seq<Scope>, rows: seq<Id>): seq<Overlap>
    requires forall id :: id in rows ==> id in t.claims && t.claims[id].intent in t.intents
  {
    if requested == [] then []
    else OverlapsOfAll(t, requested[..|requested| - 1], rows) + OverlapsOfOne(t, requested[|requested| - 1], rows)
  }

  function ScopeOverlaps(t: Tables, tt: Time, repository: Id, requested: seq<Scope>): seq<Overlap>
  {
    OverlapsOfAll(t, requested, ReservingRows(t, tt, repository, t.nextId))
  }

  /** Nothing is missed and nothing invented: the answer lists exactly the pairs of a requested
      scope and a visible claim that overlap. */
  lemma {:induction false} OverlapsAreExact(t: Tables, requested: seq<Scope>, rows: seq<Id>, o: Overlap)
    requires forall id :: id in rows ==> id in t.claims && t.claims[id].intent in t.intents
    ensures o in OverlapsOfAll(t, requested, rows) <==>
      exists i, id ::
        && 0 <= i < |requested|
        && id in rows
        && ScopesOverlap(requested[i], t.claims[id].scope)
        && o == OverlapWith(t, requested[i], id)
  {
    if requested != [] {
      var before, last := requested[..|requested| - 1], requested[|requested| - 1];
      OverlapsAreExact(t, before, rows, o);
      if o in OverlapsOfOne(t, last, rows) {
        var id :| id in rows && ScopesOverlap(last, t.claims[id].scope) && o == OverlapWith(t, last, id);
        assert requested[|requested| - 1] == last;
      }
      if i, id :|
        && 0 <= i < |requested|
        && id in rows
        && ScopesOverlap(requested[i], t.claims[id].scope)
        && o == OverlapWith(t, requested[i], id)
      {
        if i < |before| {
          assert before[i] == requested[i];
        }
      }
    }
  }

  predicate HasBlocking(overlaps: seq<Overlap>)
  {
    exists i :: 0 <= i < |overlaps| && overlaps[i].blocking
  }

  // ---- work.start ----

  /** The unique index over active claims: one per intent and resource. */
  predicate ResourceTaken(t: Tables, intent: Id, repository: Id, scope: Scope)
  {
    exists id :: id in t.claims && t.claims[id].status.ClaimActive? && t.claims[id].intent == intent
      && t.claims[id].repository == repository
      && t.claims[id].scope.kind == scope.kind && t.claims[id].scope.locator == scope.locator
  }

  function InsertClaim(t: Tables, tt: Time, intent: Id, session: Id, repository: Id, scope: Scope): Result<Tables, Error>
  {
    if ResourceTaken(t, intent, repository, scope) then Err(ConstraintViolation)
    else Ok(t.(
      claims := t.claims[t.nextId := Claim(intent, session, repository, scope, ClaimActive, tt, tt, tt + SCOPE_LEASE)],
      nextId := t.nextId + 1))
  }

  function InsertClaims(t: Tables, tt: Time, intent: Id, session: Id, repository: Id, scopes: seq<Scope>): Result<Tables, Error>
  {
    if scopes == [] then Ok(t)
    else
      var before :- InsertClaims(t, tt, intent, session, repository, scopes[..|scopes| - 1]);
      InsertClaim(before, tt, intent, session, repository, scopes[|scopes| - 1])
  }

  /** The intent row with its fresh identifier. */
  function InsertIntent(t: Tables, row: Intent): Tables
  {
    t.(intents := t.intents[t.nextId := row], nextId := t.nextId + 1)
  }

  function Consecutive(first: Id, count: nat): seq<Id>
  {
    seq(count, i requires 0 <= i < count => first + i)
  }

  function StartEffect(t: Tables, tt: Time, principal: Id, allowAll: bool, key: string, hash: Hash, input: StartInput): Result<Effect, Error>
  {
    var command := CommandKey(WorkStart, key);
    var actor :- Authorize(t, tt, principal, allowAll, input.session);
    var stored :- Lookup(t, command, hash);
    if stored.Some? then Ok(Replay(t, stored.value))
    else if t.project.archived then Err(NotFound)
    else if t.project.root.None? then Err(RepositoryUnavailable)
    else
      var repository := t.project.root.value;
      var reserved := Reserve(t, command, hash);
      var overlaps := ScopeOverlaps(reserved, tt, repository, input.scopes);
      if HasBlocking(overlaps) && !input.allowOverlap then Err(ScopeConflict(overlaps))
      else StartUnopposed(reserved, tt, command, t.nextId, actor, repository, overlaps, input)
  }

  /** The writes of work.start once the overlaps have been accepted. */
  function StartUnopposed(
    reserved: Tables, tt: Time, command: CommandKey, commandId: Id, actor: Agent, repository: Id,
    overlaps: seq<Overlap>, input: StartInput
  ): Result<Effect, Error>
  {
    var intent := reserved.nextId;
    var row := Intent(input.title, input.baseRevision, actor, Active, None, 1, None);
    var inserted := InsertIntent(reserved, row);
    var claimed :- InsertClaims(inserted, tt, intent, input.session, repository, input.scopes);
    var claims := Consecutive(inserted.nextId, |input.scopes|);
    var logged := AppendEvent(claimed, IntentAggregate(intent), 1, commandId,
                              IntentStarted(claims, overlaps, input.allowOverlap && HasBlocking(overlaps)));
    var response := StartedWork(intent, row, claims, overlaps, logged.counter);
    Ok(Effect(Complete(logged, command, response), response, false))
  }

  /** One active claim per scope, numbered from the given identifier on; older rows stay. */
  ghost predicate Reserved(
    before: map<Id, Claim>, after: map<Id, Claim>, first: Id, tt: Time, intent: Id, session: Id, repository: Id, scopes: seq<Scope>)
  {
    && (forall id: Id :: id in after <==> id in before || first <= id < first + |scopes|)
    && (forall id: Id :: id in before && id < first ==> after[id] == before[id])
    && (forall i :: 0 <= i < |scopes| ==>
          after[first + i] == Claim(intent, session, repository, scopes[i], ClaimActive, tt, tt, tt + SCOPE_LEASE))
  }

  lemma {:induction false} InsertClaimsFrame(t: Tables, tt: Time, intent: Id, session: Id, repository: Id, scopes: seq<Scope>)
    ensures var r := InsertClaims(t, tt, intent, session, repository, scopes);
      r.Ok? ==>
        && r.value == t.(claims := r.value.claims, nextId := t.nextId + |scopes|)
        && Reserved(t.claims, r.value.claims, t.nextId, tt, intent, session, repository, scopes)
  {
    hide ResourceTaken, Reserved;
    if scopes == [] {
      ReservedNone(t.claims, t.nextId, tt, intent, session, repository);
    } else {
      InsertClaimsFrame(t, tt, intent, session, repository, scopes[..|scopes| - 1]);
      var r := InsertClaims(t, tt, intent, session, repository, scopes[..|scopes| - 1]);
      if r.Ok? {
        ReservedSnoc(t.claims, r.value.claims, t.nextId, tt, intent, session, repository, scopes);
      }
    }
  }

  lemma ReservedNone(before: map<Id, Claim>, first: Id, tt: Time, intent: Id, session: Id, repository: Id)
    ensures Reserved(before, before, first, tt, intent, session, repository, [])
  {
  }

  lemma ReservedSnoc(
    before: map<Id, Claim>, after: map<Id, Claim>, first: Id, tt: Time, intent: Id, session: Id, repository: Id, scopes: seq<Scope>)
    requires scopes != [] && Reserved(before, after, first, tt, intent, session, repository, scopes[..|scopes| - 1])
    ensures Reserved(
              before,
              after[first + |scopes| - 1 := Claim(intent, session, repository, scopes[|scopes| - 1], ClaimActive, tt, tt, tt + SCOPE_LEASE)],
              first, tt, intent, session, repository, scopes)
  {
  }

  /** A fresh work.start, table by table. */
  ghost predicate Started(t: Tables, tt: Time, key: string, hash: Hash, input: StartInput, e: Effect)
  {
    var r := e.tables;
    var intent, first := t.nextId + 1, t.nextId + 2;
    && t.project.root.Some?
    && input.session in t.sessions
    && t.sessions[input.session].status.SessionActive?
    && t.sessions[input.session].expiresAt > tt
    && r.intents == t.intents[intent := Intent(input.title, input.baseRevision, t.sessions[input.session].actor, Active, None, 1, None)]
    && Reserved(t.claims, r.claims, first, tt, intent, input.session, t.project.root.value, input.scopes)
    && r.worktrees == t.worktrees
    && SameSessions(t, r) && SameHandoffs(t, r) && SamePacks(t, r) && SameCanon(t, r)
    && r.nextId == first + |input.scopes|
    && Records(t, r, CommandKey(WorkStart, key), hash, e.response)
    && StartLogged(t, tt, key, hash, input, r)
    && StartAnswered(t, tt, key, hash, input, e)
  }

  ghost predicate StartAnswered(t: Tables, tt: Time, key: string, hash: Hash, input: StartInput, e: Effect)
    requires t.project.root.Some?
  {
    var intent := t.nextId + 1;
    && intent in e.tables.intents
    && e.response == StartedWork(
         intent, e.tables.intents[intent], Consecutive(t.nextId + 2, |input.scopes|),
         ScopeOverlaps(Reserve(t, CommandKey(WorkStart, key), hash), tt, t.project.root.value, input.scopes), t.counter + 1)
  }

  /** The started event names the claims, the overlaps found, and whether they blocked. */
  ghost predicate StartLogged(t: Tables, tt: Time, key: string, hash: Hash, input: StartInput, r: Tables)
    requires t.project.root.Some?
  {
    var overlaps := ScopeOverlaps(Reserve(t, CommandKey(WorkStart, key), hash), tt, t.project.root.value, input.scopes);
    Logs(t, r, IntentAggregate(t.nextId + 1), 1, t.nextId,
         IntentStarted(Consecutive(t.nextId + 2, |input.scopes|), overlaps, HasBlocking(overlaps)))
  }

  /** No resource is asked for twice, in whatever mode. */
  ghost predicate OneModeEach(scopes: seq<Scope>)
  {
    forall i, j :: 0 <= i < j < |scopes| ==> scopes[i].kind != scopes[j].kind || scopes[i].locator != scopes[j].locator
  }

  /** For an intent without claims, inserting its claims succeeds if and only if no resource is asked for
      in two modes; otherwise the unique index refuses the second. */
  lemma {:induction false} ClaimsNeedOneMode(t: Tables, tt: Time, intent: Id, session: Id, repository: Id, scopes: seq<Scope>)
    requires forall id: Id :: id in t.claims ==> id < t.nextId && t.claims[id].intent != intent
    ensures InsertClaims(t, tt, intent, session, repository, scopes) == Err(ConstraintViolation) <==> !OneModeEach(scopes)
    ensures InsertClaims(t, tt, intent, session, repository, scopes).Err? ==> !OneModeEach(scopes)
  {
    if scopes != [] {
      var before, last := scopes[..|scopes| - 1], scopes[|scopes| - 1];
      ClaimsNeedOneMode(t, tt, intent, session, repository, before);
      var r := InsertClaims(t, tt, intent, session, repository, before);
      if r.Ok? {
        InsertClaimsFrame(t, tt, intent, session, repository, before);
        TakenByItself(t, r.value, tt, intent, session, repository, before, last);
      }
      hide InsertClaim, ResourceTaken;
      assert OneModeEach(scopes) <==> OneModeEach(before) && forall i :: 0 <= i < |before| ==> before[i].kind != last.kind || before[i].locator != last.locator;
    }
  }

  /** The only claims in the way are those just inserted. */
  lemma TakenByItself(t: Tables, r: Tables, tt: Time, intent: Id, session: Id, repository: Id, before: seq<Scope>, last: Scope)
    requires forall id: Id :: id in t.claims ==> id < t.nextId && t.claims[id].intent != intent
    requires Reserved(t.claims, r.claims, t.nextId, tt, intent, session, repository, before)
    ensures ResourceTaken(r, intent, repository, last) <==> exists i :: 0 <= i < |before| && before[i].kind == last.kind && before[i].locator == last.locator
  {
    if ResourceTaken(r, intent, repository, last) {
      var id :| id in r.claims && r.claims[id].status.ClaimActive? && r.claims[id].intent == intent
        && r.claims[id].repository == repository && r.claims[id].scope.kind == last.kind && r.claims[id].scope.locator == last.locator;
      var i := id - t.nextId;
      assert r.claims[t.nextId + i].scope == before[i];
    }
    if i :| 0 <= i < |before| && before[i].kind == last.kind && before[i].locator == last.locator {
      assert r.claims[t.nextId + i].scope == before[i];
    }
  }

  /** A fresh work.start that asks for one resource in two modes never succeeds. */
  lemma TwoModesAreRefused(t: Tables, tt: Time, principal: Id, allowAll: bool, key: string, hash: Hash, input: StartInput)
    requires CommandKey(WorkStart, key) !in t.commands && !OneModeEach(input.scopes)
    requires forall id: Id :: id in t.claims ==> id < t.nextId && t.claims[id].intent < t.nextId
    ensures StartEffect(t, tt, principal, allowAll, key, hash, input).Err?
  {
    hide ScopeOverlaps, HasBlocking, InsertClaims, OneModeEach, Consecutive;
    if StartEffect(t, tt, principal, allowAll, key, hash, input).Ok? {
      var reserved := Reserve(t, CommandKey(WorkStart, key), hash);
      var inserted := InsertIntent(reserved, Intent(input.title, input.baseRevision, t.sessions[input.session].actor, Active, None, 1, None));
      ClaimsNeedOneMode(inserted, tt, reserved.nextId, input.session, t.project.root.value, input.scopes);
    }
  }

  /** What StartUnopposed does to the tables it is given. */
  ghost predicate Wrote(
    s: Tables, tt: Time, command: CommandKey, commandId: Id, actor: Agent, repository: Id, overlaps: seq<Overlap>, input: StartInput,
    e: Effect)
    requires command in s.commands
  {
    var r := e.tables;
    && !e.replayed
    && r.intents == s.intents[s.nextId := Intent(input.title, input.baseRevision, actor, Active, None, 1, None)]
    && Reserved(s.claims, r.claims, s.nextId + 1, tt, s.nextId, input.session, repository, input.scopes)
    && r.worktrees == s.worktrees
    && SameSessions(s, r) && SameHandoffs(s, r) && SamePacks(s, r) && SameCanon(s, r)
    && r.nextId == s.nextId + 1 + |input.scopes|
    && r.commands == s.commands[command := s.commands[command].(body := Some(e.response))]
    && Logs(s, r, IntentAggregate(s.nextId), 1, commandId,
            IntentStarted(Consecutive(s.nextId + 1, |input.scopes|), overlaps, input.allowOverlap && HasBlocking(overlaps)))
    && e.response == StartedWork(s.nextId, r.intents[s.nextId], Consecutive(s.nextId + 1, |input.scopes|), overlaps, s.counter + 1)
  }

  lemma WritesOfStart(
    s: Tables, tt: Time, command: CommandKey, commandId: Id, actor: Agent, repository: Id, overlaps: seq<Overlap>, input: StartInput)
    requires command in s.commands && StartUnopposed(s, tt, command, commandId, actor, repository, overlaps, input).Ok?
    ensures Wrote(s, tt, command, commandId, actor, repository, overlaps, input,
                  StartUnopposed(s, tt, command, commandId, actor, repository, overlaps, input).value)
  {
    hide HasBlocking, InsertClaims, Reserved, Consecutive, AppendEvent, Complete;
    var row := Intent(input.title, input.baseRevision, actor, Active, None, 1, None);
    var inserted := InsertIntent(s, row);
    InsertClaimsFrame(inserted, tt, s.nextId, input.session, repository, input.scopes);
    var claimed := InsertClaims(inserted, tt, s.nextId, input.session, repository, input.scopes).value;
    var claims := Consecutive(s.nextId + 1, |input.scopes|);
    var payload := IntentStarted(claims, overlaps, input.allowOverlap && HasBlocking(overlaps));
    AppendFrame(claimed, IntentAggregate(s.nextId), 1, commandId, payload);
    var logged := AppendEvent(claimed, IntentAggregate(s.nextId), 1, commandId, payload);
    CompleteFrame(logged, command, StartedWork(s.nextId, row, claims, overlaps, logged.counter));
  }

  lemma StartDelta(t: Tables, tt: Time, principal: Id, allowAll: bool, key: string, hash: Hash, input: StartInput)
    requires StartEffect(t, tt, principal, allowAll, key, hash, input).Ok?
    ensures var e := StartEffect(t, tt, principal, allowAll, key, hash, input).value;
      if e.replayed then Repeats(t, e, CommandKey(WorkStart, key), hash) else Started(t, tt, key, hash, input, e)
  {
    hide ScopeOverlaps, HasBlocking, StartUnopposed, Reserved, Consecutive;
    var e := StartEffect(t, tt, principal, allowAll, key, hash, input).value;
    var command := CommandKey(WorkStart, key);
    if command !in t.commands {
      var reserved := Reserve(t, command, hash);
      var repository := t.project.root.value;
      WritesOfStart(reserved, tt, command, t.nextId, t.sessions[input.session].actor, repository,
                    ScopeOverlaps(reserved, tt, repository, input.scopes), input);
    }
  }

  /** A claim that a work.start added. */
  lemma NewClaim(t: Tables, tt: Time, key: string, hash: Hash, input: StartInput, e: Effect, id: Id)
    requires Started(t, tt, key, hash, input, e) && id in e.tables.claims && id !in t.claims
    ensures t.nextId + 2 <= id < t.nextId + 2 + |input.scopes|
    ensures e.tables.claims[id] ==
      Claim(t.nextId + 1, input.session, t.project.root.value, input.scopes[id - t.nextId - 2], ClaimActive, tt, tt, tt + SCOPE_LEASE)
  {
    hide StartLogged, StartAnswered, SameSessions, SameHandoffs, SamePacks, SameCanon;
    var i := id - t.nextId - 2;
    assert id == t.nextId + 2 + i;
  }

  // ---- workspace.attach ----

  predicate HasLiveWorktree(t: Tables, intent: Id)
  {
    exists id :: id in t.worktrees && t.worktrees[id].intent == intent && LiveWorktree(t.worktrees[id].status)
  }

  function AttachEffect(t: Tables, tt: Time, principal: Id, allowAll: bool, intent: Id, key: string, hash: Hash, input: WorkspaceInput): Result<Effect, Error>
  {
    var command := CommandKey(WorkspaceAttach, key);
    if intent !in t.intents || IsTerminal(t.intents[intent].status) then Err(NotFound)
    else if t.project.root.None? then Err(ConstraintViolation)
    else
      var actor :- Authorize(t, tt, principal, allowAll, input.session);
      if actor != t.intents[intent].responsible && !allowAll then Err(Forbidden)
      else
        var stored :- Lookup(t, command, hash);
        if stored.Some? then Ok(Replay(t, stored.value))
        else if HasLiveWorktree(t, intent) then Err(WorkspaceExists)
        else Ok(InsertWorktree(t, command, hash, Worktree(intent, input.session, t.project.root.value, input.baseRevision, Ready, 1)))
  }

  function InsertWorktree(t: Tables, command: CommandKey, hash: Hash, row: Worktree): Effect
  {
    var reserved := Reserve(t, command, hash);
    var id := reserved.nextId;
    var inserted := reserved.(worktrees := reserved.worktrees[id := row], nextId := id + 1);
    var logged := AppendEvent(inserted, WorktreeAggregate(id), 1, t.nextId, WorktreeReady);
    var response := AttachedWorktree(id, row, logged.counter);
    Effect(Complete(logged, command, response), response, false)
  }

  /** A fresh workspace.attach, table by table. */
  ghost predicate Attached(t: Tables, intent: Id, key: string, hash: Hash, input: WorkspaceInput, e: Effect)
  {
    var r := e.tables;
    var id := t.nextId + 1;
    && intent in t.intents
    && !IsTerminal(t.intents[intent].status)
    && !HasLiveWorktree(t, intent)
    && t.project.root.Some?
    && r.worktrees == t.worktrees[id := Worktree(intent, input.session, t.project.root.value, input.baseRevision, Ready, 1)]
    && r.intents == t.intents && r.claims == t.claims
    && SameSessions(t, r) && SameHandoffs(t, r) && SamePacks(t, r) && SameCanon(t, r)
    && r.nextId == t.nextId + 2
    && Records(t, r, CommandKey(WorkspaceAttach, key), hash, e.response)
    && Logs(t, r, WorktreeAggregate(id), 1, t.nextId, WorktreeReady)
    && e.response == AttachedWorktree(id, r.worktrees[id], t.counter + 1)
  }

  lemma AttachDelta(t: Tables, tt: Time, principal: Id, allowAll: bool, intent: Id, key: string, hash: Hash, input: WorkspaceInput)
    requires AttachEffect(t, tt, principal, allowAll, intent, key, hash, input).Ok?
    ensures var e := AttachEffect(t, tt, principal, allowAll, intent, key, hash, input).value;
      if e.replayed then Repeats(t, e, CommandKey(WorkspaceAttach, key), hash) else Attached(t, intent, key, hash, input, e)
  {
    hide HasLiveWorktree;
  }

  // ---- intent.status ----

  function MoveRow(row: Intent, tt: Time, status: IntentStatus, summary: string): Intent
  {
    row.(status := status,
         summary := if summary == "" then row.summary else Some(summary),
         version := row.version + 1,
         completedAt := if status.Completed? then Some(tt) else None)
  }

  function FreezeWorktrees(worktrees: map<Id, Worktree>, intent: Id): map<Id, Worktree>
  {
    map id | id in worktrees ::
      var row := worktrees[id];
      if row.intent == intent && (row.status.Provisioning? || row.status.Ready? || row.status.WorktreeActive?)
      then row.(status := Frozen, version := row.version + 1) else row
  }

  function ArchiveWorktrees(worktrees: map<Id, Worktree>, intent: Id): map<Id, Worktree>
  {
    map id | id in worktrees ::
      var row := worktrees[id];
      if row.intent == intent && !row.status.Archived? then row.(status := Archived, version := row.version + 1) else row
  }

  function ReleaseIntent(claims: map<Id, Claim>, intent: Id): map<Id, Claim>
  {
    map id | id in claims ::
      if claims[id].intent == intent && claims[id].status.ClaimActive? then claims[id].(status := Released) else claims[id]
  }

  function UpdateStatusEffect(t: Tables, tt: Time, principal: Id, allowAll: bool, intent: Id, key: string, hash: Hash, input: StatusInput): Result<Effect, Error>
  {
    var command := CommandKey(IntentStatusChange, key);
    if intent !in t.intents then Err(NotFound)
    else
      var actor :- Authorize(t, tt, principal, allowAll, input.session);
      if actor != t.intents[intent].responsible && !allowAll then Err(Forbidden)
      else
        var stored :- Lookup(t, command, hash);
        if stored.Some? then Ok(Replay(t, stored.value))
        else if t.intents[intent].version != input.expectedVersion then Err(VersionConflict)
        else if !ValidTransition(t.intents[intent].status, input.status) then Err(InvalidTransition)
        else Ok(MoveIntent(t, tt, command, hash, intent, input))
  }

  function MoveIntent(t: Tables, tt: Time, command: CommandKey, hash: Hash, intent: Id, input: StatusInput): Effect
    requires intent in t.intents
  {
    var reserved := Reserve(t, command, hash);
    var row := MoveRow(t.intents[intent], tt, input.status, input.summary);
    var moved := reserved.(
      intents := t.intents[intent := row],
      claims := if IsTerminal(input.status) then ReleaseIntent(t.claims, intent) else t.claims,
      worktrees :=
        if input.status.Submitted? then FreezeWorktrees(t.worktrees, intent)
        else if IsTerminal(input.status) then ArchiveWorktrees(t.worktrees, intent)
        else t.worktrees);
    var logged := AppendEvent(moved, IntentAggregate(intent), row.version, t.nextId, IntentMoved(input.status));
    var response := MovedIntent(intent, row, logged.counter);
    Effect(Complete(logged, command, response), response, false)
  }

  /** A fresh intent.status, table by table. */
  ghost predicate Moved(t: Tables, tt: Time, intent: Id, key: string, hash: Hash, input: StatusInput, e: Effect)
  {
    var r := e.tables;
    && intent in t.intents
    && ValidTransition(t.intents[intent].status, input.status)
    && r.intents == t.intents[intent := MoveRow(t.intents[intent], tt, input.status, input.summary)]
    && r.claims == (if IsTerminal(input.status) then ReleaseIntent(t.claims, intent) else t.claims)
    && r.worktrees == (
         if input.status.Submitted? then FreezeWorktrees(t.worktrees, intent)
         else if IsTerminal(input.status) then ArchiveWorktrees(t.worktrees, intent)
         else t.worktrees)
    && SameSessions(t, r) && SameHandoffs(t, r) && SamePacks(t, r) && SameCanon(t, r)
    && r.nextId == t.nextId + 1
    && Records(t, r, CommandKey(IntentStatusChange, key), hash, e.response)
    && Logs(t, r, IntentAggregate(intent), t.intents[intent].version + 1, t.nextId, IntentMoved(input.status))
    && e.response == MovedIntent(intent, r.intents[intent], t.counter + 1)
  }

  lemma MoveDelta(t: Tables, tt: Time, principal: Id, allowAll: bool, intent: Id, key: string, hash: Hash, input: StatusInput)
    requires UpdateStatusEffect(t, tt, principal, allowAll, intent, key, hash, input).Ok?
    ensures var e := UpdateStatusEffect(t, tt, principal, allowAll, intent, key, hash, input).value;
      if e.replayed then Repeats(t, e, CommandKey(IntentStatusChange, key), hash) else Moved(t, tt, intent, key, hash, input, e)
  {
    hide FreezeWorktrees, ArchiveWorktrees, ReleaseIntent, ValidTransition;
  }

  /** The request as it reaches the service, its scopes still free text. */
  datatype StartRequest = StartRequest(
    session: Id, title: string, baseRevision: string, scopes: seq<ScopeInput>, allowOverlap: bool)

  /** The service normalises the scopes before any table is read. */
  function StartWorkEffect(t: Tables, tt: Time, principal: Id, allowAll: bool, key: string, hash: Hash, request: StartRequest): Result<Effect, Error>
  {
    match NormalizeScopes(request.scopes)
    case Err(error) => Err(InvalidScopes(error))
    case Ok(scopes) => StartEffect(t, tt, principal, allowAll, key, hash, WithScopes(request, scopes))
  }

  function WithScopes(request: StartRequest, scopes: seq<Scope>): StartInput
  {
    StartInput(request.session, request.title, request.baseRevision, scopes, request.allowOverlap)
  }

  lemma StartWorkDelta(t: Tables, tt: Time, principal: Id, allowAll: bool, key: string, hash: Hash, request: StartRequest) returns (scopes: seq<Scope>)
    requires StartWorkEffect(t, tt, principal, allowAll, key, hash, request).Ok?
    ensures NormalizeScopes(request.scopes) == Ok(scopes)
    ensures forall s :: s in scopes ==> NormalScope(s)
    ensures var e := StartWorkEffect(t, tt, principal, allowAll, key, hash, request).value;
      if e.replayed then Repeats(t, e, CommandKey(WorkStart, key), hash) else Started(t, tt, key, hash, WithScopes(request, scopes), e)
  {
    hide NormalizeScopes, StartEffect, Started, NormalScope;
    scopes := NormalizeScopes(request.scopes).value;
    NormalForm(request.scopes);
    StartDelta(t, tt, principal, allowAll, key, hash, WithScopes(request, scopes));
  }

  // ---- The repository ----

  class PostgresRepository {
    const pool: Pool

    constructor (pool: Pool)
      ensures this.pool == pool
    {
      this.pool := pool;
    }

    /** loadScopeOverlaps: the query, then every requested scope against every row. */
    method LoadScopeOverlaps(t: Tables, tt: Time, repository: Id, requested: seq<Scope>) returns (overlaps: seq<Overlap>)
      ensures overlaps == ScopeOverlaps(t, tt, repository, requested)
    {
      var rows := ReservingRows(t, tt, repository, t.nextId);
      overlaps := [];
      var i := 0;
      while i < |requested|
        invariant 0 <= i <= |requested|
        invariant overlaps == OverlapsOfAll(t, requested[..i], rows)
      {
        var j := 0;
        while j < |rows|
          invariant 0 <= j <= |rows|
          invariant forall id :: id in rows[..j] ==> id in rows
          invariant overlaps == OverlapsOfAll(t, requested[..i], rows) + OverlapsOfOne(t, requested[i], rows[..j])
        {
          assert rows[..j + 1][..j] == rows[..j] && rows[j] in rows;
          if ScopesOverlap(requested[i], t.claims[rows[j]].scope) {
            overlaps := overlaps + [OverlapWith(t, requested[i], rows[j])];
          }
          j := j + 1;
        }
        assert rows[..j] == rows;
        assert requested[..i + 1][..i] == requested[..i];
        i := i + 1;
      }
      assert requested[..i] == requested;
    }

    method HasBlockingOverlap(overlaps: seq<Overlap>) returns (blocked: bool)
      ensures blocked == HasBlocking(overlaps)
    {
      var i := 0;
      while i < |overlaps|
        invariant 0 <= i <= |overlaps|
        invariant !HasBlocking(overlaps[..i])
      {
        if overlaps[i].blocking {
          return true;
        }
        i := i + 1;
      }
      assert overlaps[..i] == overlaps;
      return false;
    }

    /** The loop that inserts one claim per requested scope. */
    method InsertAll(t: Tables, tt: Time, intent: Id, session: Id, repository: Id, scopes: seq<Scope>) returns (r: Result<Tables, Error>)
      ensures r == InsertClaims(t, tt, intent, session, repository, scopes)
    {
      var tx := t;
      var i := 0;
      while i < |scopes|
        invariant 0 <= i <= |scopes|
        invariant InsertClaims(t, tt, intent, session, repository, scopes[..i]) == Ok(tx)
      {
        assert scopes[..i + 1][..i] == scopes[..i];
        var next := InsertClaim(tx, tt, intent, session, repository, scopes[i]);
        if next.Err? {
          InsertClaimsStops(t, tt, intent, session, repository, scopes, i + 1);
          return Err(next.error);
        }
        tx := next.value;
        i := i + 1;
      }
      assert scopes[..i] == scopes;
      return Ok(tx);
    }

    method Start(tt: Time, principal: Id, allowAll: bool, key: string, hash: Hash, input: StartInput) returns (outcome: Outcome)
      modifies pool
      ensures Settled(old(pool.tables), pool.tables, outcome, StartEffect(old(pool.tables), tt, principal, allowAll, key, hash, input))
    {
      var tx := pool.tables;
      var command := CommandKey(WorkStart, key);
      var actor := Authorize(tx, tt, principal, allowAll, input.session);
      if actor.Err? {
        return Failed(actor.error);
      }
      var stored := Lookup(tx, command, hash);
      if stored.Err? {
        return Failed(stored.error);
      }
      if stored.value.Some? {
        return Done(stored.value.value, true);
      }
      var commandId := tx.nextId;
      tx := Reserve(tx, command, hash);
      if tx.project.archived {
        return Failed(NotFound);
      }
      if tx.project.root.None? {
        return Failed(RepositoryUnavailable);
      }
      var repository := tx.project.root.value;
      var overlaps := LoadScopeOverlaps(tx, tt, repository, input.scopes);
      var blocked := HasBlockingOverlap(overlaps);
      if blocked && !input.allowOverlap {
        return Failed(ScopeConflict(overlaps));
      }
      var intent := tx.nextId;
      var row := Intent(input.title, input.baseRevision, actor.value, Active, None, 1, None);
      tx := InsertIntent(tx, row);
      var first := tx.nextId;
      var claimed := InsertAll(tx, tt, intent, input.session, repository, input.scopes);
      if claimed.Err? {
        return Failed(claimed.error);
      }
      tx := claimed.value;
      var claims := Consecutive(first, |input.scopes|);
      tx := AppendEvent(tx, IntentAggregate(intent), 1, commandId, IntentStarted(claims, overlaps, input.allowOverlap && blocked));
      var response := StartedWork(intent, row, claims, overlaps, tx.counter);
      tx := Complete(tx, command, response);
      pool.tables := tx;
      return Done(response, false);
    }

    /** StartWork of the service: normalise, then start. */
    method StartWork(tt: Time, principal: Id, allowAll: bool, key: string, hash: Hash, request: StartRequest) returns (outcome: Outcome)
      modifies pool
      ensures Settled(old(pool.tables), pool.tables, outcome, StartWorkEffect(old(pool.tables), tt, principal, allowAll, key, hash, request))
    {
      hide NormalizeScopes, StartEffect;
      var scopes := Normalize(request.scopes);
      if scopes.Err? {
        return Failed(InvalidScopes(scopes.error));
      }
      outcome := Start(tt, principal, allowAll, key, hash, WithScopes(request, scopes.value));
    }

    method Attach(tt: Time, principal: Id, allowAll: bool, intent: Id, key: string, hash: Hash, input: WorkspaceInput) returns (outcome: Outcome)
      modifies pool
      ensures Settled(old(pool.tables), pool.tables, outcome, AttachEffect(old(pool.tables), tt, principal, allowAll, intent, key, hash, input))
    {
      var tx := pool.tables;
      var command := CommandKey(WorkspaceAttach, key);
      if intent !in tx.intents || IsTerminal(tx.intents[intent].status) {
        return Failed(NotFound);
      }
      if tx.project.root.None? {
        return Failed(ConstraintViolation);
      }
      var actor := Authorize(tx, tt, principal, allowAll, input.session);
      if actor.Err? {
        return Failed(actor.error);
      }
      if actor.value != tx.intents[intent].responsible && !allowAll {
        return Failed(Forbidden);
      }
      var stored := Lookup(tx, command, hash);
      if stored.Err? {
        return Failed(stored.error);
      }
      if stored.value.Some? {
        return Done(stored.value.value, true);
      }
      var commandId := tx.nextId;
      tx := Reserve(tx, command, hash);
      if HasLiveWorktree(tx, intent) {
        return Failed(WorkspaceExists);
      }
      var id := tx.nextId;
      var row := Worktree(intent, input.session, tx.project.root.value, input.baseRevision, Ready, 1);
      tx := tx.(worktrees := tx.worktrees[id := row], nextId := id + 1);
      tx := AppendEvent(tx, WorktreeAggregate(id), 1, commandId, WorktreeReady);
      var response := AttachedWorktree(id, row, tx.counter);
      tx := Complete(tx, command, response);
      pool.tables := tx;
      return Done(response, false);
    }

    method UpdateStatus(tt: Time, principal: Id, allowAll: bool, intent: Id, key: string, hash: Hash, input: StatusInput) returns (outcome: Outcome)
      modifies pool
      ensures Settled(old(pool.tables), pool.tables, outcome, UpdateStatusEffect(old(pool.tables), tt, principal, allowAll, intent, key, hash, input))
    {
      var tx := pool.tables;
      var command := CommandKey(IntentStatusChange, key);
      if intent !in tx.intents {
        return Failed(NotFound);
      }
      var current := tx.intents[intent];
      var actor := Authorize(tx, tt, principal, allowAll, input.session);
      if actor.Err? {
        return Failed(actor.error);
      }
      if actor.value != current.responsible && !allowAll {
        return Failed(Forbidden);
      }
      var stored := Lookup(tx, command, hash);
      if stored.Err? {
        return Failed(stored.error);
      }
      if stored.value.Some? {
        return Done(stored.value.value, true);
      }
      var commandId := tx.nextId;
      tx := Reserve(tx, command, hash);
      if current.version != input.expectedVersion {
        return Failed(VersionConflict);
      }
      if !ValidTransition(current.status, input.status) {
        return Failed(InvalidTransition);
      }
      var row := MoveRow(current, tt, input.status, input.summary);
      tx := tx.(intents := tx.intents[intent := row]);
      if input.status.Submitted? {
        tx := tx.(worktrees := FreezeWorktrees(tx.worktrees, intent));
      }
      if IsTerminal(input.status) {
        tx := tx.(claims := ReleaseIntent(tx.claims, intent));
        tx := tx.(worktrees := ArchiveWorktrees(tx.worktrees, intent));
      }
      tx := AppendEvent(tx, IntentAggregate(intent), row.version, commandId, IntentMoved(input.status));
      var response := MovedIntent(intent, row, tx.counter);
      tx := Complete(tx, command, response);
      pool.tables := tx;
      return Done(response, false);
    }
  }

  lemma {:induction false} InsertClaimsStops(t: Tables, tt: Time, intent: Id, session: Id, repository: Id, scopes: seq<Scope>, n: nat)
    requires n <= |scopes| && InsertClaims(t, tt, intent, session, repository, scopes[..n]).Err?
    ensures InsertClaims(t, tt, intent, session, repository, scopes) == InsertClaims(t, tt, intent, session, repository, scopes[..n])
    decreases |scopes| - n
  {
    if n == |scopes| {
      assert scopes[..n] == scopes;
    } else {
      assert scopes[..n + 1][..n] == scopes[..n];
      InsertClaimsStops(t, tt, intent, session, repository, scopes, n + 1);
    }
  }
}
