/** Canonical repository synchronisation: applying a provider snapshot and recording a failure. */
module RepositorySync {
  import opened Wrappers
  import opened Tables
  import opened Commands

  datatype Snapshot = Snapshot(provider: string, fullName: string, branch: string, revision: string, visibility: string)

  function StringValue(value: Option<string>): string
  {
    if value.Some? then value.value else ""
  }

  function StateOf(t: Tables, repository: Id): Option<ProviderState>
  {
    if repository in t.providers then Some(t.providers[repository]) else None
  }

  predicate IsRoot(t: Tables, repository: Id)
  {
    t.project.root == Some(repository)
  }

  predicate Syncable(t: Tables, repository: Id)
  {
    repository in t.repositories && t.repositories[repository].status.RepositoryActive?
  }

  // ---- Apply ----

  /** Whether a snapshot differs from what is stored. */
  predicate SnapshotChanges(t: Tables, repository: Id, snapshot: Snapshot)
    requires repository in t.repositories
  {
    var previous := StateOf(t, repository);
    || previous.None?
    || previous.value.status != Synced
    || previous.value.provider != snapshot.provider
    || previous.value.fullName != snapshot.fullName
    || previous.value.branch != snapshot.branch
    || StringValue(previous.value.revision) != snapshot.revision
    || previous.value.visibility != snapshot.visibility
    || (IsRoot(t, repository) && StringValue(t.project.revision) != snapshot.revision)
    || t.repositories[repository].branch != snapshot.branch
  }

  function SyncedState(previous: Option<ProviderState>, tt: Time, snapshot: Snapshot, changed: bool): ProviderState
  {
    ProviderState(snapshot.provider, snapshot.fullName, Synced, snapshot.branch, Some(snapshot.revision), snapshot.visibility,
                  tt, Some(tt), None,
                  if previous.None? then 1 else if changed then previous.value.version + 1 else previous.value.version)
  }

  function SetBranch(row: Repository, branch: string): Repository
  {
    row.(branch := branch, version := if row.branch != branch then row.version + 1 else row.version)
  }

  function SetRevision(project: Project, revision: string): Project
  {
    project.(revision := Some(revision),
             version := if project.revision != Some(revision) then project.version + 1 else project.version)
  }

  /** The project follows its primary repository only. */
  function CanonicalProject(t: Tables, repository: Id, revision: string): Project
  {
    if IsRoot(t, repository) then SetRevision(t.project, revision) else t.project
  }

  /** The three UPDATE statements of an accepted snapshot. */
  function SetCanonical(t: Tables, repository: Id, snapshot: Snapshot, state: ProviderState): Tables
    requires repository in t.repositories
  {
    t.(
      providers := t.providers[repository := state],
      repositories := t.repositories[repository := SetBranch(t.repositories[repository], snapshot.branch)],
      project := CanonicalProject(t, repository, snapshot.revision))
  }

  /** The updates, and the event of a snapshot that changes something. */
  function StoreSnapshot(t: Tables, tt: Time, repository: Id, snapshot: Snapshot, command: Id): (r: Tables)
    requires repository in t.repositories
    ensures repository in r.providers
  {
    hide SnapshotChanges, SyncedState, SetBranch, SetRevision;
    var changed := SnapshotChanges(t, repository, snapshot);
    var state := SyncedState(StateOf(t, repository), tt, snapshot, changed);
    var stored := SetCanonical(t, repository, snapshot, state);
    if changed then AppendEvent(stored, ProviderAggregate(repository), state.version, command, CanonicalSynced(snapshot.revision)) else stored
  }

  /** A manual sync carries an idempotency key; a scheduled one draws a bare command identifier. */
  datatype SyncKey = Manual(key: string, hash: Hash) | Scheduled

  function ApplyEffect(t: Tables, tt: Time, repository: Id, key: SyncKey, snapshot: Snapshot): Result<Effect, Error>
  {
    match key
    case Manual(k, hash) =>
      var command := CommandKey(CommandType.RepositorySync, k);
      var stored :- Lookup(t, command, hash);
      if stored.Some? then Ok(Replay(t, stored.value))
      else if t.project.archived || !Syncable(t, repository) then Err(RepositoryUnavailable)
      else
        var applied := StoreSnapshot(Reserve(t, command, hash), tt, repository, snapshot, t.nextId);
        var response := Synchronised(applied.providers[repository], SnapshotChanges(t, repository, snapshot));
        Ok(Effect(Complete(applied, command, response), response, false))
    case Scheduled =>
      if t.project.archived || !Syncable(t, repository) then Err(RepositoryUnavailable)
      else
        var applied := StoreSnapshot(t.(nextId := t.nextId + 1), tt, repository, snapshot, t.nextId);
        Ok(Effect(applied, Synchronised(applied.providers[repository], SnapshotChanges(t, repository, snapshot)), false))
  }

  /** An applied snapshot, table by table. */
  ghost predicate Stored(t: Tables, tt: Time, repository: Id, snapshot: Snapshot, command: Id, r: Tables)
    requires repository in t.repositories
  {
    var changed := SnapshotChanges(t, repository, snapshot);
    var state := SyncedState(StateOf(t, repository), tt, snapshot, changed);
    var project := CanonicalProject(t, repository, snapshot.revision);
    && r.providers == t.providers[repository := state]
    && r.repositories == t.repositories[repository := SetBranch(t.repositories[repository], snapshot.branch)]
    && r.project == project.(sequence := r.project.sequence)
    && SameWork(t, r) && SameSessions(t, r) && SameHandoffs(t, r) && SamePacks(t, r)
    && if changed then Logs(t, r, ProviderAggregate(repository), state.version, command, CanonicalSynced(snapshot.revision))
       else Quiet(t, r)
  }

  lemma StoreDelta(t: Tables, tt: Time, repository: Id, snapshot: Snapshot, command: Id)
    requires repository in t.repositories
    ensures var r := StoreSnapshot(t, tt, repository, snapshot, command);
      Stored(t, tt, repository, snapshot, command, r) && r.nextId == t.nextId && r.commands == t.commands
  {
    hide SnapshotChanges, SyncedState, SetBranch, CanonicalProject, AppendEvent;
    var changed := SnapshotChanges(t, repository, snapshot);
    var state := SyncedState(StateOf(t, repository), tt, snapshot, changed);
    RevisionKeepsSequence(t, repository, snapshot.revision);
    var stored := SetCanonical(t, repository, snapshot, state);
    assert stored.providers == t.providers[repository := state];
    assert SameWork(t, stored) && SameSessions(t, stored) && SameHandoffs(t, stored) && SamePacks(t, stored);
    if changed {
      AppendFrame(SetCanonical(t, repository, snapshot, state), ProviderAggregate(repository), state.version, command,
                  CanonicalSynced(snapshot.revision));
    }
  }

  lemma RevisionKeepsSequence(t: Tables, repository: Id, revision: string)
    ensures CanonicalProject(t, repository, revision).sequence == t.project.sequence
  {
  }

  /** A fresh sync: the reservation or bare identifier, the snapshot, then the completion. */
  ghost predicate Applied(t: Tables, tt: Time, repository: Id, key: SyncKey, snapshot: Snapshot, e: Effect)
  {
    var r := e.tables;
    && repository in t.repositories
    && e.response == Synchronised(SyncedState(StateOf(t, repository), tt, snapshot, SnapshotChanges(t, repository, snapshot)), SnapshotChanges(t, repository, snapshot))
    && Stored(t, tt, repository, snapshot, t.nextId, r)
    && r.nextId == t.nextId + 1
    && match key
       case Manual(k, hash) => Records(t, r, CommandKey(CommandType.RepositorySync, k), hash, e.response)
       case Scheduled => r.commands == t.commands
  }

  lemma ApplyDelta(t: Tables, tt: Time, repository: Id, key: SyncKey, snapshot: Snapshot)
    requires ApplyEffect(t, tt, repository, key, snapshot).Ok?
    ensures var e := ApplyEffect(t, tt, repository, key, snapshot).value;
      if e.replayed then key.Manual? && Repeats(t, e, CommandKey(CommandType.RepositorySync, key.key), key.hash)
      else Applied(t, tt, repository, key, snapshot, e)
  {
    hide SnapshotChanges, SyncedState, StoreSnapshot, SetBranch, CanonicalProject, Reserve, Complete, Applied, Repeats;
    if key.Scheduled? {
      ScheduledDelta(t, tt, repository, snapshot);
    } else if CommandKey(CommandType.RepositorySync, key.key) !in t.commands {
      ManualDelta(t, tt, repository, key.key, key.hash, snapshot);
    } else {
      RepeatedDelta(t, tt, repository, key, snapshot);
    }
  }

  lemma RepeatedDelta(t: Tables, tt: Time, repository: Id, key: SyncKey, snapshot: Snapshot)
    requires key.Manual? && CommandKey(CommandType.RepositorySync, key.key) in t.commands && ApplyEffect(t, tt, repository, key, snapshot).Ok?
    ensures var e := ApplyEffect(t, tt, repository, key, snapshot).value;
      e.replayed && Repeats(t, e, CommandKey(CommandType.RepositorySync, key.key), key.hash)
  {
    hide SnapshotChanges, StoreSnapshot;
  }

  lemma ScheduledDelta(t: Tables, tt: Time, repository: Id, snapshot: Snapshot)
    requires ApplyEffect(t, tt, repository, Scheduled, snapshot).Ok?
    ensures var e := ApplyEffect(t, tt, repository, Scheduled, snapshot).value;
      !e.replayed && Applied(t, tt, repository, Scheduled, snapshot, e)
  {
    hide SnapshotChanges, SyncedState, StoreSnapshot, SetBranch, CanonicalProject;
    SameChanges(t, t.(nextId := t.nextId + 1), repository, snapshot);
    StoreDelta(t.(nextId := t.nextId + 1), tt, repository, snapshot, t.nextId);
  }

  lemma ManualDelta(t: Tables, tt: Time, repository: Id, key: string, hash: Hash, snapshot: Snapshot)
    requires CommandKey(CommandType.RepositorySync, key) !in t.commands && ApplyEffect(t, tt, repository, Manual(key, hash), snapshot).Ok?
    ensures var e := ApplyEffect(t, tt, repository, Manual(key, hash), snapshot).value;
      !e.replayed && Applied(t, tt, repository, Manual(key, hash), snapshot, e)
  {
    hide SnapshotChanges, SyncedState, StoreSnapshot, SetBranch, CanonicalProject, Reserve, Complete;
    var command := CommandKey(CommandType.RepositorySync, key);
    ReserveFrame(t, command, hash);
    var reserved := Reserve(t, command, hash);
    SameChanges(t, reserved, repository, snapshot);
    StoreDelta(reserved, tt, repository, snapshot, t.nextId);
    CompleteFrame(StoreSnapshot(reserved, tt, repository, snapshot, t.nextId), command,
                  ApplyEffect(t, tt, repository, Manual(key, hash), snapshot).value.response);
  }

  lemma SameChanges(t: Tables, r: Tables, repository: Id, snapshot: Snapshot)
    requires repository in t.repositories && SameCanon(t, r) && Quiet(t, r)
    ensures SnapshotChanges(r, repository, snapshot) == SnapshotChanges(t, repository, snapshot)
    ensures r.project.sequence == t.project.sequence ==> CanonicalProject(r, repository, snapshot.revision) == CanonicalProject(t, repository, snapshot.revision)
  {
  }

  // ---- Failure ----

  predicate FailureChanges(previous: Option<ProviderState>, fullName: string, errorCode: string)
  {
    || previous.None?
    || previous.value.status != SyncFailed
    || previous.value.provider != "github"
    || previous.value.fullName != fullName
    || StringValue(previous.value.errorCode) != errorCode
  }

  function FailedState(t: Tables, tt: Time, repository: Id, fullName: string, errorCode: string): ProviderState
    requires repository in t.repositories
  {
    var previous := StateOf(t, repository);
    if previous.Some? then
      previous.value.(provider := "github", fullName := fullName, status := SyncFailed, attemptAt := tt, errorCode := Some(errorCode),
                      version := if FailureChanges(previous, fullName, errorCode) then previous.value.version + 1 else previous.value.version)
    else
      ProviderState("github", fullName, SyncFailed, t.repositories[repository].branch,
                    if IsRoot(t, repository) then t.project.revision else None, "unknown", tt, None, Some(errorCode), 1)
  }

  /** The time-order constraint on provider states: a failure may not be dated before the last success. */
  predicate FailureInOrder(previous: Option<ProviderState>, tt: Time)
  {
    previous.Some? && previous.value.successAt.Some? ==> previous.value.successAt.value <= tt
  }

  function RecordFailureEffect(t: Tables, tt: Time, repository: Id, fullName: string, errorCode: string): Result<Effect, Error>
  {
    if !Syncable(t, repository) then Err(RepositoryUnavailable)
    else if !FailureInOrder(StateOf(t, repository), tt) then Err(ConstraintViolation)
    else
      var changed := FailureChanges(StateOf(t, repository), fullName, errorCode);
      var state := FailedState(t, tt, repository, fullName, errorCode);
      Ok(Effect(StoreFailure(t, repository, state, errorCode, changed), Synchronised(state, changed), false))
  }

  function StoreFailure(t: Tables, repository: Id, state: ProviderState, errorCode: string, changed: bool): Tables
  {
    if !changed then t.(providers := t.providers[repository := state])
    else
      AppendEvent(t.(providers := t.providers[repository := state], nextId := t.nextId + 1),
                  ProviderAggregate(repository), state.version, t.nextId, SyncFailureNoted(errorCode))
  }

  /** A recorded failure, table by table. */
  ghost predicate FailureStored(t: Tables, tt: Time, repository: Id, fullName: string, errorCode: string, r: Tables)
  {
    && repository in t.repositories
    && var state := FailedState(t, tt, repository, fullName, errorCode);
    && r.providers == t.providers[repository := state]
    && r.repositories == t.repositories
    && r.project == t.project.(sequence := r.project.sequence)
    && SameWork(t, r) && SameSessions(t, r) && SameHandoffs(t, r) && SamePacks(t, r)
    && t.nextId <= r.nextId
    && r.commands == t.commands
    && if FailureChanges(StateOf(t, repository), fullName, errorCode)
       then Logs(t, r, ProviderAggregate(repository), state.version, t.nextId, SyncFailureNoted(errorCode)) && r.nextId == t.nextId + 1
       else Quiet(t, r)
  }

  lemma FailureDelta(t: Tables, tt: Time, repository: Id, fullName: string, errorCode: string)
    requires RecordFailureEffect(t, tt, repository, fullName, errorCode).Ok?
    ensures var e := RecordFailureEffect(t, tt, repository, fullName, errorCode).value;
      && !e.replayed
      && FailureStored(t, tt, repository, fullName, errorCode, e.tables)
      && e.response == Synchronised(FailedState(t, tt, repository, fullName, errorCode), FailureChanges(StateOf(t, repository), fullName, errorCode))
  {
    hide FailureChanges, FailedState, FailureInOrder, StoreFailure;
    StoreFailureDelta(t, repository, FailedState(t, tt, repository, fullName, errorCode), errorCode,
                      FailureChanges(StateOf(t, repository), fullName, errorCode));
  }

  lemma StoreFailureDelta(t: Tables, repository: Id, state: ProviderState, errorCode: string, changed: bool)
    ensures var r := StoreFailure(t, repository, state, errorCode, changed);
      && r.providers == t.providers[repository := state]
      && r.repositories == t.repositories
      && r.project == t.project.(sequence := r.project.sequence)
      && SameWork(t, r) && SameSessions(t, r) && SameHandoffs(t, r) && SamePacks(t, r)
      && t.nextId <= r.nextId
      && r.commands == t.commands
      && if changed
         then Logs(t, r, ProviderAggregate(repository), state.version, t.nextId, SyncFailureNoted(errorCode)) && r.nextId == t.nextId + 1
         else Quiet(t, r)
  {
    hide AppendEvent;
    if changed {
      AppendFrame(t.(providers := t.providers[repository := state], nextId := t.nextId + 1),
                  ProviderAggregate(repository), state.version, t.nextId, SyncFailureNoted(errorCode));
    }
  }

  class PostgresRepository {
    const pool: Pool

    constructor (pool: Pool)
      ensures this.pool == pool
    {
      this.pool := pool;
    }

    /** The look-up that precedes the fetch. */
    method ReplayStored(key: string, hash: Hash) returns (r: Result<Option<Response>, Error>)
      ensures r == Lookup(pool.tables, CommandKey(CommandType.RepositorySync, key), hash)
    {
      var command := CommandKey(CommandType.RepositorySync, key);
      if command !in pool.tables.commands {
        return Ok(None);
      }
      var record := pool.tables.commands[command];
      if record.hash != hash {
        return Err(IdempotencyConflict);
      }
      if record.body.None? {
        return Err(CommandIncomplete);
      }
      return Ok(Some(record.body.value));
    }

    /** apply, for manual and scheduled syncs alike. */
    method Apply(tt: Time, repository: Id, key: SyncKey, snapshot: Snapshot) returns (outcome: Outcome)
      modifies pool
      ensures Settled(old(pool.tables), pool.tables, outcome, ApplyEffect(old(pool.tables), tt, repository, key, snapshot))
    {
      hide SnapshotChanges, StoreSnapshot, Reserve, Complete;
      var tx := pool.tables;
      var commandId := tx.nextId;
      if key.Manual? {
        var stored := Lookup(tx, CommandKey(CommandType.RepositorySync, key.key), key.hash);
        if stored.Err? {
          return Failed(stored.error);
        }
        if stored.value.Some? {
          return Done(stored.value.value, true);
        }
        ReserveFrame(tx, CommandKey(CommandType.RepositorySync, key.key), key.hash);
        tx := Reserve(tx, CommandKey(CommandType.RepositorySync, key.key), key.hash);
      } else {
        tx := tx.(nextId := tx.nextId + 1);
      }
      if tx.project.archived || !Syncable(tx, repository) {
        return Failed(RepositoryUnavailable);
      }
      SameChanges(pool.tables, tx, repository, snapshot);
      var changed := SnapshotChanges(tx, repository, snapshot);
      tx := WriteSnapshot(tx, tt, repository, snapshot, commandId);
      var response := Synchronised(tx.providers[repository], changed);
      if key.Manual? {
        tx := Complete(tx, CommandKey(CommandType.RepositorySync, key.key), response);
      }
      pool.tables := tx;
      return Done(response, false);
    }

    /** The statements between the reservation and its completion, one at a time. */
    method WriteSnapshot(t: Tables, tt: Time, repository: Id, snapshot: Snapshot, command: Id) returns (r: Tables)
      requires repository in t.repositories
      ensures r == StoreSnapshot(t, tt, repository, snapshot, command)
    {
      hide SnapshotChanges, SyncedState, SetBranch, SetRevision, AppendEvent;
      r := t;
      var primary := IsRoot(r, repository);
      var previous := StateOf(r, repository);
      var changed := SnapshotChanges(r, repository, snapshot);
      var state := SyncedState(previous, tt, snapshot, changed);
      r := r.(providers := r.providers[repository := state]);
      r := r.(repositories := r.repositories[repository := SetBranch(r.repositories[repository], snapshot.branch)]);
      if primary {
        r := r.(project := SetRevision(r.project, snapshot.revision));
      }
      if changed {
        r := AppendEvent(r, ProviderAggregate(repository), state.version, command, CanonicalSynced(snapshot.revision));
      }
    }

    method RecordFailure(tt: Time, repository: Id, fullName: string, errorCode: string) returns (outcome: Outcome)
      modifies pool
      ensures Settled(old(pool.tables), pool.tables, outcome, RecordFailureEffect(old(pool.tables), tt, repository, fullName, errorCode))
    {
      var tx := pool.tables;
      if !Syncable(tx, repository) {
        return Failed(RepositoryUnavailable);
      }
      var previous := StateOf(tx, repository);
      var changed := FailureChanges(previous, fullName, errorCode);
      if !FailureInOrder(previous, tt) {
        return Failed(ConstraintViolation);
      }
      var state := FailedState(tx, tt, repository, fullName, errorCode);
      tx := tx.(providers := tx.providers[repository := state]);
      if changed {
        var commandId := tx.nextId;
        tx := tx.(nextId := tx.nextId + 1);
        tx := AppendEvent(tx, ProviderAggregate(repository), state.version, commandId, SyncFailureNoted(errorCode));
      }
      pool.tables := tx;
      return Done(Synchronised(state, changed), false);
    }
  }

  /** What the provider answers: a snapshot, or a failure with its code. */
  datatype Fetch = Delivered(snapshot: Snapshot) | Unreachable(errorCode: string)

  class Service {
    const repository: PostgresRepository

    constructor (repository: PostgresRepository)
      ensures this.repository == repository
    {
      this.repository := repository;
    }

    /** A manual sync by itself: a stored answer spares the fetch, a failed fetch is recorded, and a
        fetched snapshot is applied. */
    method Sync(tt: Time, id: Id, fullName: string, key: string, hash: Hash, provider: Fetch) returns (outcome: Outcome)
      modifies repository.pool
      ensures var before, after := old(repository.pool.tables), repository.pool.tables;
        match Lookup(before, CommandKey(CommandType.RepositorySync, key), hash)
        case Err(error) => after == before && outcome == Failed(error)
        case Ok(Some(stored)) => after == before && outcome == Done(stored, true)
        case Ok(None) =>
          match provider
          case Delivered(snapshot) => Settled(before, after, outcome, ApplyEffect(before, tt, id, Manual(key, hash), snapshot))
          case Unreachable(errorCode) =>
            && outcome.Failed?
            && after == match RecordFailureEffect(before, tt, id, fullName, errorCode)
                        case Ok(effect) => effect.tables
                        case Err(_) => before
    {
      hide ApplyEffect, RecordFailureEffect;
      var stored := repository.ReplayStored(key, hash);
      if stored.Err? {
        return Failed(stored.error);
      }
      if stored.value.Some? {
        return Done(stored.value.value, true);
      }
      if provider.Unreachable? {
        var recorded := repository.RecordFailure(tt, id, fullName, provider.errorCode);
        return Failed(ProviderNotFound);
      }
      outcome := repository.Apply(tt, id, Manual(key, hash), provider.snapshot);
    }
  }
}
