/** context.compile: an immutable snapshot that remembers where in the log it was taken. */
module ContextPacks {
  import opened Wrappers
  import opened Tables
  import opened Commands

  datatype CompileInput = CompileInput(intent: Id, session: Option<Id>, gitRevision: string, ttlMinutes: nat)

  /** The requesting actor: a live session, or an active actor in its own right. */
  function PackActor(t: Tables, tt: Time, principal: Id, allowAll: bool, activeActor: bool, session: Option<Id>): Option<Error>
  {
    if session.None? then (if activeActor then None else Some(Forbidden))
    else if Authorize(t, tt, principal, allowAll, session.value).Ok? then None
    else Some(Forbidden)
  }

  function StorePack(t: Tables, tt: Time, command: CommandKey, hash: Hash, input: CompileInput): Effect
  {
    var reserved := Reserve(t, command, hash);
    var id := reserved.nextId;
    var row := Pack(input.intent, t.project.sequence, input.gitRevision, tt, tt + input.ttlMinutes * MINUTE);
    var inserted := reserved.(packs := t.packs[id := row], nextId := id + 1);
    var logged := AppendEvent(inserted, PackAggregate(id), 1, t.nextId, ContextCompiled(row.cursor));
    var response := Compiled(id, row, logged.counter);
    Effect(Complete(logged, command, response), response, false)
  }

  function CompileEffect(
    t: Tables, tt: Time, principal: Id, allowAll: bool, activeActor: bool, key: string, hash: Hash, input: CompileInput
  ): Result<Effect, Error>
  {
    var command := CommandKey(ContextCompile, key);
    var refusal := PackActor(t, tt, principal, allowAll, activeActor, input.session);
    if refusal.Some? then Err(refusal.value)
    else if input.intent !in t.intents then Err(NotFound)
    else
      var stored :- Lookup(t, command, hash);
      if stored.Some? then Ok(Replay(t, stored.value)) else Ok(StorePack(t, tt, command, hash, input))
  }

  /** A fresh compilation, table by table. */
  ghost predicate Packed(t: Tables, tt: Time, key: string, hash: Hash, input: CompileInput, e: Effect)
  {
    var r := e.tables;
    var id := t.nextId + 1;
    && input.intent in t.intents
    && r.packs == t.packs[id := Pack(input.intent, t.project.sequence, input.gitRevision, tt, tt + input.ttlMinutes * MINUTE)]
    && SameWork(t, r) && SameSessions(t, r) && SameHandoffs(t, r) && SameCanon(t, r)
    && r.nextId == t.nextId + 2
    && Records(t, r, CommandKey(ContextCompile, key), hash, e.response)
    && Logs(t, r, PackAggregate(id), 1, t.nextId, ContextCompiled(t.project.sequence))
    && e.response == Compiled(id, r.packs[id], t.counter + 1)
  }

  lemma CompileDelta(
    t: Tables, tt: Time, principal: Id, allowAll: bool, activeActor: bool, key: string, hash: Hash, input: CompileInput)
    requires CompileEffect(t, tt, principal, allowAll, activeActor, key, hash, input).Ok?
    ensures var e := CompileEffect(t, tt, principal, allowAll, activeActor, key, hash, input).value;
      if e.replayed then Repeats(t, e, CommandKey(ContextCompile, key), hash) else Packed(t, tt, key, hash, input, e)
  {
    hide PackActor;
  }

  class PostgresRepository {
    const pool: Pool

    constructor (pool: Pool)
      ensures this.pool == pool
    {
      this.pool := pool;
    }

    /** The writes of a fresh compilation. */
    method Store(t: Tables, tt: Time, command: CommandKey, hash: Hash, input: CompileInput) returns (tx: Tables, response: Response)
      ensures Effect(tx, response, false) == StorePack(t, tt, command, hash, input)
    {
      hide Reserve, AppendEvent, Complete;
      ReserveFrame(t, command, hash);
      tx := t;
      var commandId := tx.nextId;
      tx := Reserve(tx, command, hash);
      var id := tx.nextId;
      var row := Pack(input.intent, tx.project.sequence, input.gitRevision, tt, tt + input.ttlMinutes * MINUTE);
      tx := tx.(packs := tx.packs[id := row], nextId := id + 1);
      tx := AppendEvent(tx, PackAggregate(id), 1, commandId, ContextCompiled(row.cursor));
      response := Compiled(id, row, tx.counter);
      tx := Complete(tx, command, response);
    }

    method Create(tt: Time, principal: Id, allowAll: bool, activeActor: bool, key: string, hash: Hash, input: CompileInput) returns (outcome: Outcome)
      modifies pool
      ensures Settled(old(pool.tables), pool.tables, outcome, CompileEffect(old(pool.tables), tt, principal, allowAll, activeActor, key, hash, input))
    {
      hide StorePack;
      var tx := pool.tables;
      var command := CommandKey(ContextCompile, key);
      if input.session.None? {
        if !activeActor {
          return Failed(Forbidden);
        }
      } else {
        var actor := Authorize(tx, tt, principal, allowAll, input.session.value);
        if actor.Err? {
          return Failed(Forbidden);
        }
      }
      if input.intent !in tx.intents {
        return Failed(NotFound);
      }
      var stored := Lookup(tx, command, hash);
      if stored.Err? {
        return Failed(stored.error);
      }
      if stored.value.Some? {
        return Done(stored.value.value, true);
      }
      var response: Response;
      tx, response := Store(tx, tt, command, hash, input);
      pool.tables := tx;
      return Done(response, false);
    }
  }
}
