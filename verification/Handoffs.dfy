/** Handoffs: offer, accept, withdraw, and expiry on the next offer. */
module Handoffs {
  import opened Wrappers
  import opened Tables
  import opened Commands

  datatype OfferInput = OfferInput(session: Id, summary: string, records: seq<Id>, hours: nat)

  datatype AnswerKind = Accept | Withdraw

  datatype AnswerInput = AnswerInput(session: Id, answer: AnswerKind, expectedVersion: nat)

  predicate Lapsed(row: Handoff, tt: Time)
  {
    row.status.Offered? && row.expiresAt <= tt
  }

  /** The derived status every reader sees. */
  function View(row: Handoff, tt: Time): Handoff
  {
    if Lapsed(row, tt) then row.(status := HandoffExpired, respondedAt := Some(row.expiresAt)) else row
  }

  // ---- Offer ----

  function ExpireRow(row: Handoff, tt: Time): Handoff
  {
    row.(status := HandoffExpired, respondedAt := Some(tt), version := row.version + 1)
  }

  function LapsedOffer(t: Tables, tt: Time, intent: Id, n: nat): (r: Option<Id>)
    ensures r.Some? ==> r.value < n && r.value in t.handoffs && t.handoffs[r.value].intent == intent && Lapsed(t.handoffs[r.value], tt)
    ensures r.None? ==> forall id: Id :: id < n && id in t.handoffs && t.handoffs[id].intent == intent ==> !Lapsed(t.handoffs[id], tt)
  {
    if n == 0 then None
    else
      var before := LapsedOffer(t, tt, intent, n - 1);
      if before.Some? then before
      else if n - 1 in t.handoffs && t.handoffs[n - 1].intent == intent && Lapsed(t.handoffs[n - 1], tt) then Some(n - 1)
      else None
  }

  /** Expires the lapsed offer of the intent, if there is one, and logs it. */
  function ExpireLapsed(t: Tables, tt: Time, intent: Id, command: Id): Tables
  {
    var lapsed := LapsedOffer(t, tt, intent, t.nextId);
    if lapsed.None? then t
    else
      var row := ExpireRow(t.handoffs[lapsed.value], tt);
      AppendEvent(t.(handoffs := t.handoffs[lapsed.value := row]), HandoffAggregate(lapsed.value), row.version, command, HandoffMoved(HandoffExpired))
  }

  predicate HasOffer(t: Tables, intent: Id)
  {
    exists id :: id in t.handoffs && t.handoffs[id].intent == intent && t.handoffs[id].status.Offered?
  }

  /** Links the records one by one; an unknown or repeated record stops the command. */
  function LinkRecords(known: set<Id>, records: seq<Id>): Result<seq<Id>, Error>
  {
    if records == [] then Ok([])
    else
      var before :- LinkRecords(known, records[..|records| - 1]);
      var record := records[|records| - 1];
      if record !in known then Err(KnowledgeRecordNotFound)
      else if record in before then Err(ConstraintViolation)
      else Ok(before + [record])
  }

  lemma {:induction false} LinkRecordsStops(known: set<Id>, records: seq<Id>, n: nat)
    requires n <= |records| && LinkRecords(known, records[..n]).Err?
    ensures LinkRecords(known, records) == LinkRecords(known, records[..n])
    decreases |records| - n
  {
    if n == |records| {
      assert records[..n] == records;
    } else {
      assert records[..n + 1][..n] == records[..n];
      LinkRecordsStops(known, records, n + 1);
    }
  }

  /** Linking succeeds exactly on known records without repetition, and links them in order. */
  lemma {:induction false} LinkRecordsExact(known: set<Id>, records: seq<Id>)
    ensures LinkRecords(known, records).Ok? <==>
      (forall r :: r in records ==> r in known) && (forall i, j :: 0 <= i < j < |records| ==> records[i] != records[j])
    ensures LinkRecords(known, records).Ok? ==> LinkRecords(known, records).value == records
  {
    if records != [] {
      var before, last := records[..|records| - 1], records[|records| - 1];
      assert records == before + [last];
      LinkRecordsExact(known, before);
      if last in before {
        var i :| 0 <= i < |before| && before[i] == last;
        assert records[i] == records[|records| - 1];
      }
    }
  }

  function InsertOffer(t: Tables, tt: Time, command: CommandKey, commandId: Id, intent: Id, actor: Agent, records: seq<Id>, input: OfferInput): Effect
  {
    var id := t.nextId;
    var row := Handoff(intent, input.session, actor, None, None, Offered, input.summary, records, 1, tt, None, tt + input.hours * HOUR);
    var inserted := t.(handoffs := t.handoffs[id := row], nextId := id + 1);
    var logged := AppendEvent(inserted, HandoffAggregate(id), 1, commandId, HandoffOffered);
    var response := HandoffResult(id, View(row, tt), logged.counter);
    Effect(Complete(logged, command, response), response, false)
  }

  function OfferEffect(
    t: Tables, tt: Time, principal: Id, allowAll: bool, intent: Id, key: string, hash: Hash, known: set<Id>, input: OfferInput
  ): Result<Effect, Error>
  {
    var command := CommandKey(HandoffOffer, key);
    if intent !in t.intents || t.intents[intent].status.Cancelled? || t.intents[intent].status.Abandoned? then Err(NotFound)
    else
      var actor :- Authorize(t, tt, principal, allowAll, input.session);
      if actor != t.intents[intent].responsible && !allowAll then Err(Forbidden)
      else
        var stored :- Lookup(t, command, hash);
        if stored.Some? then Ok(Replay(t, stored.value))
        else
          var expired := ExpireLapsed(Reserve(t, command, hash), tt, intent, t.nextId);
          if input.hours == 0 then Err(ConstraintViolation)
          else if HasOffer(expired, intent) then Err(HandoffExists)
          else
            var records :- LinkRecords(known, input.records);
            Ok(InsertOffer(expired, tt, command, t.nextId, intent, actor, records, input))
  }

  /** Expiring the lapsed offer, table by table. */
  ghost predicate Expired(t: Tables, tt: Time, intent: Id, command: Id, r: Tables)
  {
    var lapsed := LapsedOffer(t, tt, intent, t.nextId);
    && SameWork(t, r) && SameSessions(t, r) && SamePacks(t, r) && SameCanon(t, r)
    && r.nextId == t.nextId
    && r.commands == t.commands
    && if lapsed.None? then r.handoffs == t.handoffs && Quiet(t, r)
       else
         var row := ExpireRow(t.handoffs[lapsed.value], tt);
         && r.handoffs == t.handoffs[lapsed.value := row]
         && Logs(t, r, HandoffAggregate(lapsed.value), row.version, command, HandoffMoved(HandoffExpired))
  }

  lemma ExpireDelta(t: Tables, tt: Time, intent: Id, command: Id)
    ensures Expired(t, tt, intent, command, ExpireLapsed(t, tt, intent, command))
  {
    hide LapsedOffer, AppendEvent, ExpireRow;
    var lapsed := LapsedOffer(t, tt, intent, t.nextId);
    if lapsed.Some? {
      var row := ExpireRow(t.handoffs[lapsed.value], tt);
      AppendFrame(t.(handoffs := t.handoffs[lapsed.value := row]), HandoffAggregate(lapsed.value), row.version, command, HandoffMoved(HandoffExpired));
    }
  }

  /** A fresh offer on the tables left by the expiry, table by table. */
  ghost predicate OfferedOn(m: Tables, tt: Time, command: CommandKey, commandId: Id, intent: Id, actor: Agent, input: OfferInput, e: Effect)
  {
    var r := e.tables;
    && r.handoffs == m.handoffs[m.nextId := Handoff(intent, input.session, actor, None, None, Offered, input.summary, input.records, 1, tt, None, tt + input.hours * HOUR)]
    && SameWork(m, r) && SameSessions(m, r) && SamePacks(m, r) && SameCanon(m, r)
    && r.nextId == m.nextId + 1
    && (command in m.commands ==> r.commands == m.commands[command := m.commands[command].(body := Some(e.response))])
    && Logs(m, r, HandoffAggregate(m.nextId), 1, commandId, HandoffOffered)
    && e.response == HandoffResult(m.nextId, View(r.handoffs[m.nextId], tt), m.counter + 1)
  }

  lemma InsertDelta(t: Tables, tt: Time, command: CommandKey, commandId: Id, intent: Id, actor: Agent, input: OfferInput)
    ensures var e := InsertOffer(t, tt, command, commandId, intent, actor, input.records, input);
      !e.replayed && OfferedOn(t, tt, command, commandId, intent, actor, input, e)
  {
    hide View;
  }

  /** A fresh handoff.offer: the reservation, the expiry, then the offer. */
  ghost predicate OfferMade(t: Tables, tt: Time, intent: Id, key: string, hash: Hash, input: OfferInput, e: Effect)
  {
    var command := CommandKey(HandoffOffer, key);
    var reserved := Reserve(t, command, hash);
    var m := ExpireLapsed(reserved, tt, intent, t.nextId);
    && intent in t.intents
    && input.session in t.sessions
    && command !in t.commands
    && input.hours > 0
    && Expired(reserved, tt, intent, t.nextId, m)
    && !HasOffer(m, intent)
    && OfferedOn(m, tt, command, t.nextId, intent, t.sessions[input.session].actor, input, e)
  }

  lemma OfferDelta(t: Tables, tt: Time, principal: Id, allowAll: bool, intent: Id, key: string, hash: Hash, known: set<Id>, input: OfferInput)
    requires OfferEffect(t, tt, principal, allowAll, intent, key, hash, known, input).Ok?
    ensures var e := OfferEffect(t, tt, principal, allowAll, intent, key, hash, known, input).value;
      if e.replayed then Repeats(t, e, CommandKey(HandoffOffer, key), hash) else OfferMade(t, tt, intent, key, hash, input, e)
  {
    hide LinkRecords, HasOffer, ExpireLapsed, InsertOffer, Expired, OfferedOn;
    var command := CommandKey(HandoffOffer, key);
    if command !in t.commands {
      LinkRecordsExact(known, input.records);
      ExpireDelta(Reserve(t, command, hash), tt, intent, t.nextId);
      InsertDelta(ExpireLapsed(Reserve(t, command, hash), tt, intent, t.nextId), tt, command, t.nextId, intent, t.sessions[input.session].actor, input);
      FreshOffer(t, tt, principal, allowAll, intent, key, hash, known, input);
    }
  }

  /** What an offer whose key is free has passed, and where its result comes from. */
  lemma FreshOffer(t: Tables, tt: Time, principal: Id, allowAll: bool, intent: Id, key: string, hash: Hash, known: set<Id>, input: OfferInput)
    requires OfferEffect(t, tt, principal, allowAll, intent, key, hash, known, input).Ok?
    requires CommandKey(HandoffOffer, key) !in t.commands
    requires LinkRecords(known, input.records).Ok? ==> LinkRecords(known, input.records).value == input.records
    ensures intent in t.intents && input.session in t.sessions && input.hours > 0
    ensures var m := ExpireLapsed(Reserve(t, CommandKey(HandoffOffer, key), hash), tt, intent, t.nextId);
      && !HasOffer(m, intent)
      && OfferEffect(t, tt, principal, allowAll, intent, key, hash, known, input).value ==
         InsertOffer(m, tt, CommandKey(HandoffOffer, key), t.nextId, intent, t.sessions[input.session].actor, input.records, input)
  {
    hide LinkRecords, HasOffer, ExpireLapsed, InsertOffer;
  }

  // ---- Accept and withdraw ----

  function AnswerRow(row: Handoff, tt: Time, actor: Agent, input: AnswerInput): Handoff
  {
    match input.answer
    case Accept => row.(status := Accepted, toSession := Some(input.session), to := Some(actor), respondedAt := Some(tt), version := row.version + 1)
    case Withdraw => row.(status := Withdrawn, toSession := None, to := None, respondedAt := Some(tt), version := row.version + 1)
  }

  /** The checks on an answer, in the order in which the command makes them. */
  function AnswerRefusal(row: Handoff, tt: Time, allowAll: bool, actor: Agent, input: AnswerInput): Option<Error>
  {
    if row.version != input.expectedVersion then Some(VersionConflict)
    else if !row.status.Offered? || row.expiresAt <= tt then Some(InvalidHandoffStatus)
    else if input.answer.Withdraw? && actor != row.from && !allowAll then Some(Forbidden)
    else if input.answer.Accept? && actor == row.from then Some(OwnHandoff)
    else None
  }

  function StoreAnswer(t: Tables, tt: Time, command: CommandKey, hash: Hash, handoff: Id, actor: Agent, input: AnswerInput): Effect
    requires handoff in t.handoffs
  {
    var reserved := Reserve(t, command, hash);
    var row := AnswerRow(t.handoffs[handoff], tt, actor, input);
    var stored := reserved.(handoffs := t.handoffs[handoff := row]);
    var logged := AppendEvent(stored, HandoffAggregate(handoff), row.version, t.nextId, HandoffMoved(row.status));
    var response := HandoffResult(handoff, View(row, tt), logged.counter);
    Effect(Complete(logged, command, response), response, false)
  }

  function AnswerEffect(
    t: Tables, tt: Time, principal: Id, allowAll: bool, intent: Id, handoff: Id, key: string, hash: Hash, input: AnswerInput
  ): Result<Effect, Error>
  {
    var command := CommandKey(HandoffStatusChange, key);
    if handoff !in t.handoffs || t.handoffs[handoff].intent != intent || intent !in t.intents then Err(NotFound)
    else
      var actor :- Authorize(t, tt, principal, allowAll, input.session);
      var stored :- Lookup(t, command, hash);
      if stored.Some? then Ok(Replay(t, stored.value))
      else
        var refusal := AnswerRefusal(t.handoffs[handoff], tt, allowAll, actor, input);
        if refusal.Some? then Err(refusal.value) else Ok(StoreAnswer(t, tt, command, hash, handoff, actor, input))
  }

  /** A fresh answer, table by table. */
  ghost predicate Answered(t: Tables, tt: Time, allowAll: bool, intent: Id, handoff: Id, key: string, hash: Hash, input: AnswerInput, e: Effect)
  {
    var r := e.tables;
    && handoff in t.handoffs
    && t.handoffs[handoff].intent == intent
    && input.session in t.sessions
    && var actor := t.sessions[input.session].actor;
    && AnswerRefusal(t.handoffs[handoff], tt, allowAll, actor, input).None?
    && var row := AnswerRow(t.handoffs[handoff], tt, actor, input);
    && r.handoffs == t.handoffs[handoff := row]
    && SameWork(t, r) && SameSessions(t, r) && SamePacks(t, r) && SameCanon(t, r)
    && r.nextId == t.nextId + 1
    && Records(t, r, CommandKey(HandoffStatusChange, key), hash, e.response)
    && Logs(t, r, HandoffAggregate(handoff), t.handoffs[handoff].version + 1, t.nextId, HandoffMoved(row.status))
    && e.response == HandoffResult(handoff, View(row, tt), t.counter + 1)
  }

  lemma AnswerDelta(
    t: Tables, tt: Time, principal: Id, allowAll: bool, intent: Id, handoff: Id, key: string, hash: Hash, input: AnswerInput)
    requires AnswerEffect(t, tt, principal, allowAll, intent, handoff, key, hash, input).Ok?
    ensures var e := AnswerEffect(t, tt, principal, allowAll, intent, handoff, key, hash, input).value;
      if e.replayed then Repeats(t, e, CommandKey(HandoffStatusChange, key), hash)
      else Answered(t, tt, allowAll, intent, handoff, key, hash, input, e)
  {
    hide View, AnswerRefusal;
  }

  class PostgresRepository {
    const pool: Pool

    constructor (pool: Pool)
      ensures this.pool == pool
    {
      this.pool := pool;
    }

    /** The first statement after the reservation: an offer that has lapsed expires, and says so in the log. */
    method ExpirePrevious(t: Tables, tt: Time, intent: Id, command: Id) returns (r: Tables)
      ensures r == ExpireLapsed(t, tt, intent, command)
    {
      r := t;
      var lapsed := LapsedOffer(r, tt, intent, r.nextId);
      if lapsed.Some? {
        var row := ExpireRow(r.handoffs[lapsed.value], tt);
        r := r.(handoffs := r.handoffs[lapsed.value := row]);
        r := AppendEvent(r, HandoffAggregate(lapsed.value), row.version, command, HandoffMoved(HandoffExpired));
      }
    }

    /** The loop that links one knowledge record after another. */
    method Link(known: set<Id>, records: seq<Id>) returns (r: Result<seq<Id>, Error>)
      ensures r == LinkRecords(known, records)
    {
      var linked: seq<Id> := [];
      var i := 0;
      assert records[..0] == [];
      while i < |records|
        invariant 0 <= i <= |records|
        invariant LinkRecords(known, records[..i]) == Ok(linked)
      {
        assert records[..i + 1][..i] == records[..i];
        if records[i] !in known {
          LinkRecordsStops(known, records, i + 1);
          return Err(KnowledgeRecordNotFound);
        }
        if records[i] in linked {
          LinkRecordsStops(known, records, i + 1);
          return Err(ConstraintViolation);
        }
        linked := linked + [records[i]];
        i := i + 1;
      }
      assert records[..i] == records;
      return Ok(linked);
    }

    method OfferHandoff(
      tt: Time, principal: Id, allowAll: bool, intent: Id, key: string, hash: Hash, known: set<Id>, input: OfferInput
    ) returns (outcome: Outcome)
      modifies pool
      ensures Settled(old(pool.tables), pool.tables, outcome, OfferEffect(old(pool.tables), tt, principal, allowAll, intent, key, hash, known, input))
    {
      hide LapsedOffer, ExpireLapsed, LinkRecords, View;
      var tx := pool.tables;
      var command := CommandKey(HandoffOffer, key);
      if intent !in tx.intents || tx.intents[intent].status.Cancelled? || tx.intents[intent].status.Abandoned? {
        return Failed(NotFound);
      }
      var actor := Authorize(tx, tt, principal, allowAll, input.session);
      if actor.Err? {
        return Failed(actor.error);
      }
      if actor.value != tx.intents[intent].responsible && !allowAll {
        return Failed(Forbidden);
      }
      var stored := Lookup(tx, command, hash);
      if stored.Err? {
        return Failed(stored.error);
      }
      if stored.value.Some? {
        return Done(stored.value.value, true);
      }
      var commandId := tx.nextId;
      tx := Reserve(tx, command, hash);
      tx := ExpirePrevious(tx, tt, intent, commandId);
      if input.hours == 0 {
        return Failed(ConstraintViolation);
      }
      if HasOffer(tx, intent) {
        return Failed(HandoffExists);
      }
      var linked := Link(known, input.records);
      if linked.Err? {
        return Failed(linked.error);
      }
      var id := tx.nextId;
      var row := Handoff(intent, input.session, actor.value, None, None, Offered, input.summary, linked.value, 1, tt, None, tt + input.hours * HOUR);
      tx := tx.(handoffs := tx.handoffs[id := row], nextId := id + 1);
      tx := AppendEvent(tx, HandoffAggregate(id), 1, commandId, HandoffOffered);
      var response := HandoffResult(id, View(row, tt), tx.counter);
      tx := Complete(tx, command, response);
      pool.tables := tx;
      return Done(response, false);
    }

    method UpdateHandoffStatus(
      tt: Time, principal: Id, allowAll: bool, intent: Id, handoff: Id, key: string, hash: Hash, input: AnswerInput
    ) returns (outcome: Outcome)
      modifies pool
      ensures Settled(old(pool.tables), pool.tables, outcome, AnswerEffect(old(pool.tables), tt, principal, allowAll, intent, handoff, key, hash, input))
    {
      var tx := pool.tables;
      var command := CommandKey(HandoffStatusChange, key);
      if handoff !in tx.handoffs || tx.handoffs[handoff].intent != intent || intent !in tx.intents {
        return Failed(NotFound);
      }
      var current := tx.handoffs[handoff];
      var actor := Authorize(tx, tt, principal, allowAll, input.session);
      if actor.Err? {
        return Failed(actor.error);
      }
      var stored := Lookup(tx, command, hash);
      if stored.Err? {
        return Failed(stored.error);
      }
      if stored.value.Some? {
        return Done(stored.value.value, true);
      }
      var commandId := tx.nextId;
      tx := Reserve(tx, command, hash);
      if current.version != input.expectedVersion {
        return Failed(VersionConflict);
      }
      if !current.status.Offered? || !(current.expiresAt > tt) {
        return Failed(InvalidHandoffStatus);
      }
      if input.answer.Withdraw? && actor.value != current.from && !allowAll {
        return Failed(Forbidden);
      }
      if input.answer.Accept? && actor.value == current.from {
        return Failed(OwnHandoff);
      }
      var row := AnswerRow(current, tt, actor.value, input);
      tx := tx.(handoffs := tx.handoffs[handoff := row]);
      tx := AppendEvent(tx, HandoffAggregate(handoff), row.version, commandId, HandoffMoved(row.status));
      var response := HandoffResult(handoff, View(row, tt), tx.counter);
      tx := Complete(tx, command, response);
      pool.tables := tx;
      return Done(response, false);
    }
  }
}
