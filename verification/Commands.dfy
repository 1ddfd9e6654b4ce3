/** What every command shares: session authorisation, the idempotency record and the event log. */
module Commands {
  import opened Wrappers
  import opened Tables

  /** The actor behind a live session that the principal may use. */
  function Authorize(t: Tables, tt: Time, principal: Id, allowAll: bool, session: Id): Result<Agent, Error>
  {
    if && session in t.sessions
       && t.sessions[session].status.SessionActive?
       && t.sessions[session].expiresAt > tt
       && (allowAll || t.sessions[session].actor.sponsor == principal)
    then Ok(t.sessions[session].actor)
    else Err(Forbidden)
  }

  /** Looks a command up: None when its key is free, the stored response on a retry. */
  function Lookup(t: Tables, key: CommandKey, hash: Hash): Result<Option<Response>, Error>
  {
    if key !in t.commands then Ok(None)
    else if t.commands[key].hash != hash then Err(IdempotencyConflict)
    else if t.commands[key].body.None? then Err(CommandIncomplete)
    else Ok(Some(t.commands[key].body.value))
  }

  /** Inserts the still incomplete record of a command whose key is free. */
  function Reserve(t: Tables, key: CommandKey, hash: Hash): Tables
  {
    t.(commands := t.commands[key := CommandRecord(hash, t.nextId, None)], nextId := t.nextId + 1)
  }

  /** UPDATE of the reserved record: it touches a row only where there is one. */
  function Complete(t: Tables, key: CommandKey, response: Response): Tables
  {
    if key in t.commands then t.(commands := t.commands[key := t.commands[key].(body := Some(response))]) else t
  }

  function Replay(t: Tables, response: Response): Effect
  {
    Effect(t, response, true)
  }

  /** Draws the next project sequence, stores the event and queues it. */
  function AppendEvent(t: Tables, aggregate: Aggregate, version: nat, command: Id, payload: Payload): Tables
  {
    var sequence := t.counter + 1;
    t.(counter := sequence,
       project := t.project.(sequence := sequence),
       events := t.events + [Event(sequence, aggregate, version, command, payload)],
       outbox := t.outbox + [sequence])
  }

  // ---- What a transaction did, table by table ----

  ghost predicate Quiet(t: Tables, r: Tables)
  {
    r.counter == t.counter && r.project.sequence == t.project.sequence && r.events == t.events && r.outbox == t.outbox
  }

  ghost predicate Logs(t: Tables, r: Tables, aggregate: Aggregate, version: nat, command: Id, payload: Payload)
  {
    && r.counter == t.counter + 1
    && r.project.sequence == t.counter + 1
    && r.events == t.events + [Event(t.counter + 1, aggregate, version, command, payload)]
    && r.outbox == t.outbox + [t.counter + 1]
  }

  /** A fresh command leaves its complete record. */
  ghost predicate Records(t: Tables, r: Tables, key: CommandKey, hash: Hash, response: Response)
  {
    key !in t.commands && r.commands == t.commands[key := CommandRecord(hash, t.nextId, Some(response))]
  }

  /** A retry finds its record, answers from it and writes nothing. */
  ghost predicate Repeats(t: Tables, e: Effect, key: CommandKey, hash: Hash)
  {
    && e.tables == t
    && key in t.commands
    && t.commands[key].hash == hash
    && t.commands[key].body == Some(e.response)
  }

  ghost predicate SameWork(t: Tables, r: Tables)
  {
    r.intents == t.intents && r.claims == t.claims && r.worktrees == t.worktrees
  }

  ghost predicate SameSessions(t: Tables, r: Tables)
  {
    r.sessions == t.sessions && r.observations == t.observations
  }

  ghost predicate SameHandoffs(t: Tables, r: Tables)
  {
    r.handoffs == t.handoffs
  }

  ghost predicate SamePacks(t: Tables, r: Tables)
  {
    r.packs == t.packs
  }

  ghost predicate SameCanon(t: Tables, r: Tables)
  {
    && r.repositories == t.repositories
    && r.providers == t.providers
    && r.project == t.project.(sequence := r.project.sequence)
  }

  ghost predicate SameTables(t: Tables, r: Tables)
  {
    SameWork(t, r) && SameSessions(t, r) && SameHandoffs(t, r) && SamePacks(t, r) && SameCanon(t, r)
  }

  lemma AppendFrame(t: Tables, aggregate: Aggregate, version: nat, command: Id, payload: Payload)
    ensures var r := AppendEvent(t, aggregate, version, command, payload);
      && Logs(t, r, aggregate, version, command, payload)
      && SameTables(t, r) && r.commands == t.commands && r.nextId == t.nextId
  {
  }

  lemma ReserveFrame(t: Tables, key: CommandKey, hash: Hash)
    ensures var r := Reserve(t, key, hash);
      && r.commands == t.commands[key := CommandRecord(hash, t.nextId, None)] && r.nextId == t.nextId + 1
      && SameTables(t, r) && Quiet(t, r)
  {
  }

  lemma CompleteFrame(t: Tables, key: CommandKey, response: Response)
    requires key in t.commands
    ensures var r := Complete(t, key, response);
      && r.commands == t.commands[key := t.commands[key].(body := Some(response))] && r.nextId == t.nextId
      && SameTables(t, r) && Quiet(t, r)
  {
  }
}
