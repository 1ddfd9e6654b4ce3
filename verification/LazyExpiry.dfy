/** Handoffs expire lazily: a lapsed offer keeps its stored status until the next offer for the same
    intent, and readers see through a view. Compared here with a store that expires every offer the
    instant it lapses. */
module LazyExpiry {
  import opened Wrappers
  import opened Tables
  import opened Commands
  import opened Handoffs
  import opened HandoffProtocol

  // ---- The eager store ----

  function EagerRow(row: Handoff): Handoff
  {
    row.(status := HandoffExpired, respondedAt := Some(row.expiresAt), version := row.version + 1)
  }

  /** Every offer whose deadline has come by the given clock. */
  function ExpireAll(handoffs: map<Id, Handoff>, clock: Time): map<Id, Handoff>
  {
    map id | id in handoffs :: if Lapsed(handoffs[id], clock) then EagerRow(handoffs[id]) else handoffs[id]
  }

  function Expiring(t: Tables, clock: Time): Tables
  {
    t.(handoffs := ExpireAll(t.handoffs, clock))
  }

  /** A handoff command that began at tt and takes effect at clock. */
  datatype HandoffCommand =
    | Offer(principal: Id, allowAll: bool, intent: Id, key: string, hash: Hash, known: set<Id>, offer: OfferInput)
    | Answer(principal: Id, allowAll: bool, intent: Id, handoff: Id, key: string, hash: Hash, answer: AnswerInput)

  function Run(t: Tables, tt: Time, c: HandoffCommand): Result<Effect, Error>
  {
    match c
    case Offer(principal, allowAll, intent, key, hash, known, offer) => OfferEffect(t, tt, principal, allowAll, intent, key, hash, known, offer)
    case Answer(principal, allowAll, intent, handoff, key, hash, answer) => AnswerEffect(t, tt, principal, allowAll, intent, handoff, key, hash, answer)
  }

  // ---- The relation ----

  /** The two stores agree on everything handoff commands read besides the handoffs themselves; stored
      answers may differ in the event they name. */
  ghost predicate Alike(l: Tables, g: Tables)
  {
    && g.sessions == l.sessions && g.intents == l.intents && g.nextId == l.nextId
    && g.commands.Keys == l.commands.Keys
    && (forall k :: k in l.commands ==> g.commands[k].hash == l.commands[k].hash && g.commands[k].body.Some? == l.commands[k].body.Some?)
  }

  /** A handoff is stored alike, or the eager store has expired what is lapsed or expired in the lazy one. */
  ghost predicate RowMirrors(a: Handoff, b: Handoff, clock: Time)
  {
    || b == a
    || (&& b.status.HandoffExpired?
        && (a.status.Offered? || a.status.HandoffExpired?)
        && a.expiresAt <= clock
        && b.intent == a.intent)
  }

  ghost predicate Mirrors(l: map<Id, Handoff>, g: map<Id, Handoff>, clock: Time)
  {
    && g.Keys == l.Keys
    && forall id: Id :: id in l ==> RowMirrors(l[id], g[id], clock)
  }

  ghost predicate Related(l: Tables, g: Tables, clock: Time)
  {
    && Alike(l, g)
    && Mirrors(l.handoffs, g.handoffs, clock)
    && OneOfferEach(l.handoffs)
    && (forall id: Id :: id in l.handoffs ==> id < l.nextId)
  }

  lemma ExpiringKeepsRelation(l: Tables, g: Tables, before: Time, clock: Time)
    requires Related(l, g, before) && before <= clock
    ensures Related(l, Expiring(g, clock), clock)
    ensures forall id: Id :: id in g.handoffs ==> !Lapsed(Expiring(g, clock).handoffs[id], clock)
  {
  }

  /** Readers see the same status in both stores, at every time from the clock on. */
  lemma ViewsAgree(l: Tables, g: Tables, clock: Time, at: Time, id: Id)
    requires Related(l, g, clock) && clock <= at && id in l.handoffs
    ensures id in g.handoffs
    ensures View(l.handoffs[id], at).status == Expiring(g, at).handoffs[id].status
  {
  }

  // ---- One command ----

  /** The handoff is open and its deadline falls between the command's timestamp and the clock. */
  predicate DeadlineBetween(row: Handoff, tt: Time, clock: Time)
  {
    row.status.Offered? && tt < row.expiresAt <= clock
  }

  ghost predicate LagsOffer(t: Tables, intent: Id, tt: Time, clock: Time)
  {
    exists id :: id in t.handoffs && t.handoffs[id].intent == intent && DeadlineBetween(t.handoffs[id], tt, clock)
  }

  /** Whether the lag of a command straddles a deadline it depends on. */
  ghost predicate Straddles(t: Tables, tt: Time, clock: Time, c: HandoffCommand)
  {
    match c
    case Offer(_, _, intent, _, _, _, _) => LagsOffer(t, intent, tt, clock)
    case Answer(_, _, _, handoff, _, _, _) => handoff in t.handoffs && DeadlineBetween(t.handoffs[handoff], tt, clock)
  }

  predicate Succeeds(r: Result<Effect, Error>)
  {
    r.Ok?
  }

  predicate Writes(r: Result<Effect, Error>)
  {
    r.Ok? && !r.value.replayed
  }

  /** What the tables say of an answer under a free key: it would be accepted at tt. */
  predicate Answerable(t: Tables, tt: Time, c: HandoffCommand)
    requires c.Answer?
  {
    && CommandKey(HandoffStatusChange, c.key) !in t.commands
    && c.intent in t.intents
    && c.handoff in t.handoffs && t.handoffs[c.handoff].intent == c.intent
    && Authorize(t, tt, c.principal, c.allowAll, c.answer.session).Ok?
    && AnswerRefusal(t.handoffs[c.handoff], tt, c.allowAll, t.sessions[c.answer.session].actor, c.answer).None?
  }

  /** One answer succeeds in both stores or in neither, except when the lazy one would accept it under a
      free key and its lag straddles the deadline: then the lazy one accepts and the eager one refuses. */
  lemma AnswersAgree(l: Tables, g: Tables, tt: Time, clock: Time, c: HandoffCommand)
    requires c.Answer? && Related(l, g, clock) && tt <= clock
    requires forall id: Id :: id in g.handoffs ==> !Lapsed(g.handoffs[id], clock)
    ensures (Succeeds(Run(l, tt, c)) <==> Succeeds(Run(g, tt, c))) <==> !(Answerable(l, tt, c) && Straddles(l, tt, clock, c))
    ensures Answerable(l, tt, c) && Straddles(l, tt, clock, c) ==> Succeeds(Run(l, tt, c)) && !Succeeds(Run(g, tt, c))
    ensures !(Answerable(l, tt, c) && Straddles(l, tt, clock, c)) ==> (Writes(Run(l, tt, c)) <==> Writes(Run(g, tt, c)))
    ensures Writes(Run(l, tt, c)) <==> Answerable(l, tt, c)
  {
    hide StoreAnswer;
    AnswerWrites(l, tt, c);
    AnswerWrites(g, tt, c);
  }

  lemma AnswerWrites(t: Tables, tt: Time, c: HandoffCommand)
    requires c.Answer?
    ensures Writes(Run(t, tt, c)) <==> Answerable(t, tt, c)
    ensures Run(t, tt, c).Ok? && CommandKey(HandoffStatusChange, c.key) !in t.commands ==>
      c.handoff in t.handoffs && Run(t, tt, c).value == StoreAnswer(t, tt, CommandKey(HandoffStatusChange, c.key), c.hash, c.handoff, t.sessions[c.answer.session].actor, c.answer) && !Run(t, tt, c).value.replayed
  {
    hide AnswerRefusal;
  }

  /** An offer that is still open at tt stands in the way of another. */
  ghost predicate StillOffered(handoffs: map<Id, Handoff>, intent: Id, tt: Time)
  {
    exists id :: OpenOffer(handoffs, id) && handoffs[id].intent == intent && tt < handoffs[id].expiresAt
  }

  /** After the lazy expiry an offer is left exactly when one is still open at tt. */
  lemma ExpiryClearsTheWay(t: Tables, tt: Time, intent: Id, command: Id)
    requires OneOfferEach(t.handoffs) && forall id: Id :: id in t.handoffs ==> id < t.nextId
    ensures HasOffer(ExpireLapsed(t, tt, intent, command), intent) <==> StillOffered(t.handoffs, intent, tt)
  {
    ExpireDelta(t, tt, intent, command);
    hide ExpireLapsed, LapsedOffer;
    var r := ExpireLapsed(t, tt, intent, command);
    if StillOffered(t.handoffs, intent, tt) {
      var id :| OpenOffer(t.handoffs, id) && t.handoffs[id].intent == intent && tt < t.handoffs[id].expiresAt;
      assert r.handoffs[id].status.Offered?;
    }
    if HasOffer(r, intent) {
      var id :| id in r.handoffs && r.handoffs[id].intent == intent && r.handoffs[id].status.Offered?;
      assert OpenOffer(t.handoffs, id);
    }
  }

  /** A first offer succeeds on conditions that both stores share, and when none is still open at tt. */
  lemma OfferWrites(t: Tables, tt: Time, c: HandoffCommand)
    requires c.Offer? && OneOfferEach(t.handoffs) && forall id: Id :: id in t.handoffs ==> id < t.nextId
    ensures CommandKey(HandoffOffer, c.key) !in t.commands ==>
      (Run(t, tt, c).Ok? <==> Offerable(t, tt, c) && !StillOffered(t.handoffs, c.intent, tt))
    ensures CommandKey(HandoffOffer, c.key) !in t.commands && Run(t, tt, c).Ok? ==> !Run(t, tt, c).value.replayed
    ensures CommandKey(HandoffOffer, c.key) in t.commands ==>
      (Run(t, tt, c).Ok? <==> Retryable(t, tt, c)) && (Run(t, tt, c).Ok? ==> Run(t, tt, c).value.replayed)
  {
    hide ExpireLapsed, HasOffer, LinkRecords, InsertOffer;
    var command := CommandKey(HandoffOffer, c.key);
    ReserveFrame(t, command, c.hash);
    ExpiryClearsTheWay(Reserve(t, command, c.hash), tt, c.intent, t.nextId);
    var m := ExpireLapsed(Reserve(t, command, c.hash), tt, c.intent, t.nextId);
    if Allowed(t, tt, c) {
      InsertDelta(m, tt, command, t.nextId, c.intent, t.sessions[c.offer.session].actor, c.offer);
    }
    LinkRecordsExact(c.known, c.offer.records);
  }

  predicate Allowed(t: Tables, tt: Time, c: HandoffCommand)
    requires c.Offer?
  {
    && c.intent in t.intents && !t.intents[c.intent].status.Cancelled? && !t.intents[c.intent].status.Abandoned?
    && Authorize(t, tt, c.principal, c.allowAll, c.offer.session).Ok?
    && (Authorize(t, tt, c.principal, c.allowAll, c.offer.session).value == t.intents[c.intent].responsible || c.allowAll)
  }

  /** What the tables say of an offer under a free key: it would be made at tt if no other stood in its way. */
  predicate Offerable(t: Tables, tt: Time, c: HandoffCommand)
    requires c.Offer?
  {
    && CommandKey(HandoffOffer, c.key) !in t.commands
    && Allowed(t, tt, c)
    && c.offer.hours > 0
    && LinkRecords(c.known, c.offer.records).Ok?
  }

  predicate Retryable(t: Tables, tt: Time, c: HandoffCommand)
    requires c.Offer? && CommandKey(HandoffOffer, c.key) in t.commands
  {
    var stored := t.commands[CommandKey(HandoffOffer, c.key)];
    Allowed(t, tt, c) && stored.hash == c.hash && stored.body.Some?
  }

  /** One offer succeeds in both stores or in neither, except when it comes under a free key, meets every
      other condition, and its lag straddles the deadline of the intent's open offer: then that offer
      stands in its way in the lazy store and not in the eager one. */
  lemma OffersAgree(l: Tables, g: Tables, tt: Time, clock: Time, c: HandoffCommand)
    requires c.Offer? && Related(l, g, clock) && tt <= clock
    requires forall id: Id :: id in g.handoffs ==> !Lapsed(g.handoffs[id], clock)
    ensures (Succeeds(Run(l, tt, c)) <==> Succeeds(Run(g, tt, c))) <==>
      !(Offerable(l, tt, c) && Straddles(l, tt, clock, c))
    ensures Offerable(l, tt, c) && Straddles(l, tt, clock, c) ==> !Succeeds(Run(l, tt, c)) && Succeeds(Run(g, tt, c))
    ensures !(Offerable(l, tt, c) && Straddles(l, tt, clock, c)) ==> (Writes(Run(l, tt, c)) <==> Writes(Run(g, tt, c)))
  {
    hide LinkRecords, Run;
    EagerHasOneOffer(l, g, clock);
    OfferWrites(l, tt, c);
    OfferWrites(g, tt, c);
    WaysAgree(l, g, tt, clock, c.intent);
  }

  lemma EagerHasOneOffer(l: Tables, g: Tables, clock: Time)
    requires Related(l, g, clock)
    ensures OneOfferEach(g.handoffs) && forall id: Id :: id in g.handoffs ==> id < g.nextId
  {
    assert forall id: Id :: OpenOffer(g.handoffs, id) ==> OpenOffer(l.handoffs, id) && g.handoffs[id].intent == l.handoffs[id].intent;
  }

  /** What stands in the way of an offer differs between the stores only by a straddled deadline. */
  lemma WaysAgree(l: Tables, g: Tables, tt: Time, clock: Time, intent: Id)
    requires Related(l, g, clock) && tt <= clock
    requires forall id: Id :: id in g.handoffs ==> !Lapsed(g.handoffs[id], clock)
    ensures StillOffered(g.handoffs, intent, tt) ==> StillOffered(l.handoffs, intent, tt)
    ensures LagsOffer(l, intent, tt, clock) ==> StillOffered(l.handoffs, intent, tt) && !StillOffered(g.handoffs, intent, tt)
    ensures !LagsOffer(l, intent, tt, clock) ==> (StillOffered(l.handoffs, intent, tt) <==> StillOffered(g.handoffs, intent, tt))
  {
    if StillOffered(g.handoffs, intent, tt) {
      var id :| OpenOffer(g.handoffs, id) && g.handoffs[id].intent == intent && tt < g.handoffs[id].expiresAt;
      assert OpenOffer(l.handoffs, id) && l.handoffs[id] == g.handoffs[id];
      if LagsOffer(l, intent, tt, clock) {
        var other :| other in l.handoffs && l.handoffs[other].intent == intent && DeadlineBetween(l.handoffs[other], tt, clock);
        assert OpenOffer(l.handoffs, other);
      }
    }
    if LagsOffer(l, intent, tt, clock) {
      var other :| other in l.handoffs && l.handoffs[other].intent == intent && DeadlineBetween(l.handoffs[other], tt, clock);
      assert OpenOffer(l.handoffs, other) && tt < l.handoffs[other].expiresAt;
    }
    if StillOffered(l.handoffs, intent, tt) && !LagsOffer(l, intent, tt, clock) {
      var id :| OpenOffer(l.handoffs, id) && l.handoffs[id].intent == intent && tt < l.handoffs[id].expiresAt;
      assert !DeadlineBetween(l.handoffs[id], tt, clock);
      assert OpenOffer(g.handoffs, id);
    }
  }

  // ---- What a command leaves behind ----

  lemma AnswerKeepsRelation(l: Tables, g: Tables, tt: Time, clock: Time, c: HandoffCommand)
    requires c.Answer? && Related(l, g, clock) && tt <= clock && !Straddles(l, tt, clock, c)
    requires Writes(Run(l, tt, c)) && Writes(Run(g, tt, c))
    ensures Related(Run(l, tt, c).value.tables, Run(g, tt, c).value.tables, clock)
  {
    AnswerDelta(l, tt, c.principal, c.allowAll, c.intent, c.handoff, c.key, c.hash, c.answer);
    AnswerDelta(g, tt, c.principal, c.allowAll, c.intent, c.handoff, c.key, c.hash, c.answer);
    hide AnswerEffect;
    AnsweredKeepsRelation(l, g, tt, clock, c, Run(l, tt, c).value, Run(g, tt, c).value);
  }

  lemma AnsweredKeepsRelation(l: Tables, g: Tables, tt: Time, clock: Time, c: HandoffCommand, a: Effect, b: Effect)
    requires c.Answer? && Related(l, g, clock) && tt <= clock && !Straddles(l, tt, clock, c)
    requires Answered(l, tt, c.allowAll, c.intent, c.handoff, c.key, c.hash, c.answer, a)
    requires Answered(g, tt, c.allowAll, c.intent, c.handoff, c.key, c.hash, c.answer, b)
    ensures Related(a.tables, b.tables, clock)
  {
    hide Logs, Mirrors, OneOfferEach, Alike;
    assert g.handoffs[c.handoff] == l.handoffs[c.handoff] by { MirrorOfOpen(l.handoffs, g.handoffs, clock, c.handoff); }
    MirrorsWith(l.handoffs, g.handoffs, clock, c.handoff, a.tables.handoffs[c.handoff]);
    ClosingKeepsOneOffer(l.handoffs, c.handoff, a.tables.handoffs[c.handoff]);
    AlikeReads(l, g);
    AlikeWith(l, g, a.tables, b.tables, CommandKey(HandoffStatusChange, c.key), c.hash);
  }

  lemma MirrorOfOpen(l: map<Id, Handoff>, g: map<Id, Handoff>, clock: Time, id: Id)
    requires Mirrors(l, g, clock) && id in l && l[id].status.Offered? && l[id].expiresAt > clock
    ensures id in g && g[id] == l[id]
  {
  }

  lemma MirrorsWith(l: map<Id, Handoff>, g: map<Id, Handoff>, clock: Time, id: Id, row: Handoff)
    requires Mirrors(l, g, clock)
    ensures Mirrors(l[id := row], g[id := row], clock)
  {
  }

  lemma ClosingKeepsOneOffer(l: map<Id, Handoff>, id: Id, row: Handoff)
    requires OneOfferEach(l) && !row.status.Offered?
    ensures OneOfferEach(l[id := row])
  {
    assert forall other: Id :: OpenOffer(l[id := row], other) ==> OpenOffer(l, other) && l[id := row][other] == l[other];
  }

  lemma OpeningKeepsOneOffer(l: map<Id, Handoff>, id: Id, row: Handoff)
    requires OneOfferEach(l) && forall other: Id :: OpenOffer(l, other) ==> l[other].intent != row.intent
    ensures OneOfferEach(l[id := row])
  {
    assert forall other: Id :: OpenOffer(l[id := row], other) ==> other == id || (OpenOffer(l, other) && l[other].intent != row.intent);
  }

  /** Both stores record the same fresh command. */
  lemma AlikeWith(l: Tables, g: Tables, a: Tables, b: Tables, key: CommandKey, hash: Hash)
    requires Alike(l, g) && a.sessions == l.sessions && a.intents == l.intents && b.sessions == g.sessions && b.intents == g.intents
    requires a.nextId == b.nextId
    requires key in a.commands && a.commands[key].hash == hash && a.commands[key].body.Some? && a.commands == l.commands[key := a.commands[key]]
    requires key in b.commands && b.commands[key].hash == hash && b.commands[key].body.Some? && b.commands == g.commands[key := b.commands[key]]
    ensures Alike(a, b)
  {
  }

  lemma OfferKeepsRelation(l: Tables, g: Tables, tt: Time, clock: Time, c: HandoffCommand)
    requires c.Offer? && Related(l, g, clock) && tt <= clock
    requires forall id: Id :: id in g.handoffs ==> !Lapsed(g.handoffs[id], clock)
    requires Writes(Run(l, tt, c)) && Writes(Run(g, tt, c))
    ensures Related(Run(l, tt, c).value.tables, Run(g, tt, c).value.tables, clock)
  {
    OfferDelta(l, tt, c.principal, c.allowAll, c.intent, c.key, c.hash, c.known, c.offer);
    OfferDelta(g, tt, c.principal, c.allowAll, c.intent, c.key, c.hash, c.known, c.offer);
    hide OfferEffect;
    MadeKeepsRelation(l, g, tt, clock, c, Run(l, tt, c).value, Run(g, tt, c).value);
  }

  function OfferRow(tt: Time, intent: Id, actor: Agent, input: OfferInput): Handoff
  {
    Handoff(intent, input.session, actor, None, None, Offered, input.summary, input.records, 1, tt, None, tt + input.hours * HOUR)
  }

  function AfterExpiry(t: Tables, tt: Time, c: HandoffCommand): Tables
    requires c.Offer?
  {
    ExpireLapsed(Reserve(t, CommandKey(HandoffOffer, c.key), c.hash), tt, c.intent, t.nextId)
  }

  /** The tables an offer leaves, seen from the tables it found. */
  ghost predicate OfferLeaves(t: Tables, tt: Time, c: HandoffCommand, e: Effect)
    requires c.Offer?
  {
    var m, r, k := AfterExpiry(t, tt, c), e.tables, CommandKey(HandoffOffer, c.key);
    && c.offer.session in t.sessions
    && Expired(Reserve(t, k, c.hash), tt, c.intent, t.nextId, m)
    && Reserve(t, k, c.hash).handoffs == t.handoffs
    && (forall id: Id :: OpenOffer(m.handoffs, id) ==> m.handoffs[id].intent != c.intent)
    && r.handoffs == m.handoffs[t.nextId + 1 := OfferRow(tt, c.intent, t.sessions[c.offer.session].actor, c.offer)]
    && r.sessions == t.sessions && r.intents == t.intents && r.nextId == t.nextId + 2
    && r.commands == t.commands[k := CommandRecord(c.hash, t.nextId, Some(e.response))]
  }

  lemma OfferSummary(t: Tables, tt: Time, c: HandoffCommand, e: Effect)
    requires c.Offer? && OfferMade(t, tt, c.intent, c.key, c.hash, c.offer, e)
    ensures OfferLeaves(t, tt, c, e)
  {
    hide Logs, ExpireLapsed, LapsedOffer, Reserve;
    ReserveFrame(t, CommandKey(HandoffOffer, c.key), c.hash);
  }

  lemma MadeKeepsRelation(l: Tables, g: Tables, tt: Time, clock: Time, c: HandoffCommand, a: Effect, b: Effect)
    requires c.Offer? && Related(l, g, clock) && tt <= clock
    requires forall id: Id :: id in g.handoffs ==> !Lapsed(g.handoffs[id], clock)
    requires OfferMade(l, tt, c.intent, c.key, c.hash, c.offer, a) && OfferMade(g, tt, c.intent, c.key, c.hash, c.offer, b)
    ensures Related(a.tables, b.tables, clock)
  {
    hide OfferMade, OfferLeaves, Mirrors, OneOfferEach, Alike, Lapsed;
    OfferSummary(l, tt, c, a);
    OfferSummary(g, tt, c, b);
    OffersLeaveMirror(l, g, tt, clock, c, a, b);
    OffersLeaveAlike(l, g, tt, clock, c, a, b);
  }

  lemma OffersLeaveMirror(l: Tables, g: Tables, tt: Time, clock: Time, c: HandoffCommand, a: Effect, b: Effect)
    requires c.Offer? && Related(l, g, clock) && tt <= clock
    requires forall id: Id :: id in g.handoffs ==> !Lapsed(g.handoffs[id], clock)
    requires OfferLeaves(l, tt, c, a) && OfferLeaves(g, tt, c, b)
    ensures Mirrors(a.tables.handoffs, b.tables.handoffs, clock) && OneOfferEach(a.tables.handoffs)
    ensures forall id: Id :: id in a.tables.handoffs ==> id < a.tables.nextId
  {
    hide AfterExpiry, Reserve, Expired, Mirrors, OneOfferEach, Alike, OfferRow;
    var k, m, w := CommandKey(HandoffOffer, c.key), AfterExpiry(l, tt, c), AfterExpiry(g, tt, c);
    ExpiryKeepsMirror(l, m, g, tt, clock, c.intent, l.nextId, Reserve(l, k, c.hash));
    NothingToExpire(Reserve(g, k, c.hash), w, tt, clock, c.intent, g.nextId);
    AlikeReads(l, g);
    var row := OfferRow(tt, c.intent, l.sessions[c.offer.session].actor, c.offer);
    assert row.intent == c.intent by { OfferRowIntent(tt, c.intent, l.sessions[c.offer.session].actor, c.offer); }
    MirrorsWith(m.handoffs, g.handoffs, clock, l.nextId + 1, row);
    OpeningKeepsOneOffer(m.handoffs, l.nextId + 1, row);
    NumberedAfterOffer(l, m, a.tables, row);
  }

  lemma OffersLeaveAlike(l: Tables, g: Tables, tt: Time, clock: Time, c: HandoffCommand, a: Effect, b: Effect)
    requires c.Offer? && Related(l, g, clock) && OfferLeaves(l, tt, c, a) && OfferLeaves(g, tt, c, b)
    ensures Alike(a.tables, b.tables)
  {
    hide AfterExpiry, Reserve, Expired, Mirrors, OneOfferEach, OfferRow;
    AlikeReads(l, g);
    AlikeWith(l, g, a.tables, b.tables, CommandKey(HandoffOffer, c.key), c.hash);
  }

  lemma OfferRowIntent(tt: Time, intent: Id, actor: Agent, input: OfferInput)
    ensures OfferRow(tt, intent, actor, input).intent == intent
  {
  }

  lemma NothingToExpire(t: Tables, r: Tables, tt: Time, clock: Time, intent: Id, command: Id)
    requires Expired(t, tt, intent, command, r) && tt <= clock && forall id: Id :: id in t.handoffs ==> !Lapsed(t.handoffs[id], clock)
    ensures r.handoffs == t.handoffs
  {
    hide LapsedOffer, Logs;
  }

  lemma NumberedAfterOffer(l: Tables, m: Tables, r: Tables, row: Handoff)
    requires (forall id: Id :: id in l.handoffs ==> id < l.nextId) && m.handoffs.Keys == l.handoffs.Keys
    requires r.handoffs == m.handoffs[l.nextId + 1 := row] && r.nextId == l.nextId + 2
    ensures forall id: Id :: id in r.handoffs ==> id < r.nextId
  {
  }

  lemma AlikeReads(l: Tables, g: Tables)
    requires Alike(l, g)
    ensures g.nextId == l.nextId && g.sessions == l.sessions && g.intents == l.intents
  {
  }

  lemma ExpiryKeepsMirror(l: Tables, m: Tables, g: Tables, tt: Time, clock: Time, intent: Id, command: Id, reserved: Tables)
    requires Related(l, g, clock) && tt <= clock && reserved.handoffs == l.handoffs && Expired(reserved, tt, intent, command, m)
    requires forall id: Id :: id in g.handoffs ==> !Lapsed(g.handoffs[id], clock)
    ensures Mirrors(m.handoffs, g.handoffs, clock) && OneOfferEach(m.handoffs) && m.handoffs.Keys == l.handoffs.Keys
  {
    hide LapsedOffer, Logs;
    assert forall id: Id :: OpenOffer(m.handoffs, id) ==> OpenOffer(l.handoffs, id) && m.handoffs[id] == l.handoffs[id];
  }

  // ---- Whole runs ----

  /** Between handoff commands anything may happen to the other tables, in both stores alike. */
  datatype LazyStep = Asked(command: HandoffCommand, tt: Time, clock: Time) | Elsewhere(world: Tables, clock: Time)

  function Moved(t: Tables, handoffs: map<Id, Handoff>, world: Tables): Tables
  {
    world.(handoffs := handoffs, commands := t.commands, nextId := if world.nextId < t.nextId then t.nextId else world.nextId)
  }

  function Committed(t: Tables, r: Result<Effect, Error>): Tables
  {
    if r.Ok? then r.value.tables else t
  }

  function LazyNext(l: Tables, step: LazyStep): Tables
  {
    match step
    case Asked(command, tt, _) => Committed(l, Run(l, tt, command))
    case Elsewhere(world, _) => Moved(l, l.handoffs, world)
  }

  function EagerNext(g: Tables, step: LazyStep): Tables
  {
    match step
    case Asked(command, tt, clock) => Committed(Expiring(g, clock), Run(Expiring(g, clock), tt, command))
    case Elsewhere(world, clock) => Moved(g, ExpireAll(g.handoffs, clock), world)
  }

  function LazyRun(t: Tables, steps: seq<LazyStep>): Tables
  {
    if steps == [] then t else LazyNext(LazyRun(t, steps[..|steps| - 1]), steps[|steps| - 1])
  }

  function EagerRun(t: Tables, steps: seq<LazyStep>): Tables
  {
    if steps == [] then t else EagerNext(EagerRun(t, steps[..|steps| - 1]), steps[|steps| - 1])
  }

  ghost predicate InTime(steps: seq<LazyStep>, start: Time)
  {
    && (forall i :: 0 <= i < |steps| ==> start <= steps[i].clock && (steps[i].Asked? ==> steps[i].tt <= steps[i].clock))
    && (forall i, j :: 0 <= i < j < |steps| ==> steps[i].clock <= steps[j].clock)
  }

  /** The lag of a command that would be accepted, or would be if no offer stood in its way, straddles the
      deadline it depends on. */
  ghost predicate Disagrees(t: Tables, tt: Time, clock: Time, c: HandoffCommand)
  {
    && Straddles(t, tt, clock, c)
    && match c
       case Offer(_, _, _, _, _, _, _) => Offerable(t, tt, c)
       case Answer(_, _, _, _, _, _, _) => Answerable(t, tt, c)
  }

  ghost predicate Punctual(t: Tables, steps: seq<LazyStep>)
  {
    forall i :: 0 <= i < |steps| && steps[i].Asked? ==> !Disagrees(LazyRun(t, steps[..i]), steps[i].tt, steps[i].clock, steps[i].command)
  }

  function Clock(steps: seq<LazyStep>, start: Time): Time
  {
    if steps == [] then start else steps[|steps| - 1].clock
  }

  /** One command on related stores: it succeeds in both or in neither if and only if it does not straddle
      its deadline in that way. */
  lemma StepAgrees(l: Tables, g: Tables, before: Time, step: LazyStep)
    requires Related(l, g, before) && before <= step.clock && step.Asked? && step.tt <= step.clock
    ensures (Succeeds(Run(l, step.tt, step.command)) <==> Succeeds(Run(Expiring(g, step.clock), step.tt, step.command))) <==>
      !Disagrees(l, step.tt, step.clock, step.command)
  {
    ExpiringKeepsRelation(l, g, before, step.clock);
    hide Run, Expiring, Straddles, Related, Answerable, Offerable;
    if step.command.Offer? {
      OffersAgree(l, Expiring(g, step.clock), step.tt, step.clock, step.command);
    } else {
      AnswersAgree(l, Expiring(g, step.clock), step.tt, step.clock, step.command);
    }
  }

  lemma StepKeepsRelation(l: Tables, g: Tables, before: Time, step: LazyStep)
    requires Related(l, g, before) && before <= step.clock
    requires step.Asked? ==> step.tt <= step.clock && !Disagrees(l, step.tt, step.clock, step.command)
    ensures Related(LazyNext(l, step), EagerNext(g, step), step.clock)
  {
    ExpiringKeepsRelation(l, g, before, step.clock);
    hide Run, Expiring, Straddles, Related, Answerable, Offerable;
    if step.Asked? {
      var x, c, tt := Expiring(g, step.clock), step.command, step.tt;
      RepeatsKeepTables(l, tt, c);
      RepeatsKeepTables(x, tt, c);
      if c.Offer? {
        OffersAgree(l, x, tt, step.clock, c);
        if Writes(Run(l, tt, c)) { OfferKeepsRelation(l, x, tt, step.clock, c); }
      } else {
        AnswersAgree(l, x, tt, step.clock, c);
        if Writes(Run(l, tt, c)) { AnswerKeepsRelation(l, x, tt, step.clock, c); }
      }
    } else {
      WorldKeepsRelation(l, g, Expiring(g, step.clock), step.world, step.clock);
    }
  }

  lemma WorldKeepsRelation(l: Tables, g: Tables, x: Tables, world: Tables, clock: Time)
    requires x == Expiring(g, clock) && Related(l, x, clock)
    ensures Related(Moved(l, l.handoffs, world), Moved(g, ExpireAll(g.handoffs, clock), world), clock)
  {
    hide ExpireAll, OneOfferEach;
  }

  lemma RepeatsKeepTables(t: Tables, tt: Time, c: HandoffCommand)
    ensures Run(t, tt, c).Ok? && Run(t, tt, c).value.replayed ==> Run(t, tt, c).value.tables == t
  {
    if Run(t, tt, c).Ok? {
      match c
      case Offer(principal, allowAll, intent, key, hash, known, offer) => OfferDelta(t, tt, principal, allowAll, intent, key, hash, known, offer);
      case Answer(principal, allowAll, intent, handoff, key, hash, answer) => AnswerDelta(t, tt, principal, allowAll, intent, handoff, key, hash, answer);
      hide OfferEffect, AnswerEffect;
    }
  }

  lemma {:induction false} RunKeepsRelation(t: Tables, steps: seq<LazyStep>, start: Time)
    requires OneOfferEach(t.handoffs) && forall id: Id :: id in t.handoffs ==> id < t.nextId
    requires InTime(steps, start) && Punctual(t, steps)
    ensures Related(LazyRun(t, steps), EagerRun(t, steps), Clock(steps, start))
  {
    hide Run, Disagrees, Related, LazyNext, EagerNext, OneOfferEach;
    if steps == [] {
      RelatedToItself(t, start);
    } else {
      var before, last := steps[..|steps| - 1], steps[|steps| - 1];
      assert forall i :: 0 <= i < |before| ==> before[..i] == steps[..i];
      RunKeepsRelation(t, before, start);
      StepKeepsRelation(LazyRun(t, before), EagerRun(t, before), Clock(before, start), last);
    }
  }

  lemma PunctualBefore(t: Tables, steps: seq<LazyStep>, start: Time, n: nat)
    requires InTime(steps, start) && Punctual(t, steps) && n <= |steps|
    ensures InTime(steps[..n], start) && Punctual(t, steps[..n])
  {
    hide LazyRun, Disagrees;
    assert forall i :: 0 <= i < n ==> steps[..n][..i] == steps[..i];
  }

  /** At the n-th step, if it is a command, both stores let it succeed or both refuse it. */
  ghost predicate AgreesAt(t: Tables, steps: seq<LazyStep>, n: nat)
    requires n < |steps|
  {
    steps[n].Asked? ==>
      (Succeeds(Run(LazyRun(t, steps[..n]), steps[n].tt, steps[n].command)) <==>
       Succeeds(Run(Expiring(EagerRun(t, steps[..n]), steps[n].clock), steps[n].tt, steps[n].command)))
  }

  lemma AgreesUnlessItStraddles(t: Tables, steps: seq<LazyStep>, start: Time, n: nat)
    requires OneOfferEach(t.handoffs) && forall id: Id :: id in t.handoffs ==> id < t.nextId
    requires InTime(steps, start) && n < |steps| && Punctual(t, steps[..n])
    ensures steps[n].Asked? ==>
      (AgreesAt(t, steps, n) <==> !Disagrees(LazyRun(t, steps[..n]), steps[n].tt, steps[n].clock, steps[n].command))
  {
    hide Run, Disagrees, Related, LazyRun, EagerRun, LazyNext, EagerNext, OneOfferEach, Punctual;
    RunKeepsRelation(t, steps[..n], start);
    if steps[n].Asked? {
      StepAgrees(LazyRun(t, steps[..n]), EagerRun(t, steps[..n]), Clock(steps[..n], start), steps[n]);
    }
  }

  lemma {:induction false} AgreementIsPunctual(t: Tables, steps: seq<LazyStep>, start: Time, n: nat)
    requires OneOfferEach(t.handoffs) && forall id: Id :: id in t.handoffs ==> id < t.nextId
    requires InTime(steps, start) && n <= |steps| && forall i :: 0 <= i < |steps| ==> AgreesAt(t, steps, i)
    ensures Punctual(t, steps[..n])
  {
    hide Disagrees, LazyRun, AgreesAt, OneOfferEach;
    if n > 0 {
      AgreementIsPunctual(t, steps, start, n - 1);
      AgreesUnlessItStraddles(t, steps, start, n - 1);
      assert forall i :: 0 <= i < n ==> steps[..n][..i] == steps[..i];
      assert forall i :: 0 <= i < n - 1 ==> steps[..n - 1][..i] == steps[..i] && steps[..n - 1][i] == steps[i];
    }
  }

  /** Over every run: the lazy and the eager store let the same offers, acceptances and withdrawals
      succeed throughout if and only if no command straddles its deadline in that way. */
  lemma SameCommandsSucceed(t: Tables, steps: seq<LazyStep>, start: Time)
    requires OneOfferEach(t.handoffs) && forall id: Id :: id in t.handoffs ==> id < t.nextId
    requires InTime(steps, start)
    ensures (forall n :: 0 <= n < |steps| ==> AgreesAt(t, steps, n)) <==> Punctual(t, steps)
  {
    hide Disagrees, LazyRun, AgreesAt, OneOfferEach;
    if forall n :: 0 <= n < |steps| ==> AgreesAt(t, steps, n) {
      AgreementIsPunctual(t, steps, start, |steps|);
      assert steps[..|steps|] == steps;
    }
    if Punctual(t, steps) {
      forall n | 0 <= n < |steps| ensures AgreesAt(t, steps, n) {
        PunctualBefore(t, steps, start, n);
        AgreesUnlessItStraddles(t, steps, start, n);
        assert AgreesAt(t, steps, n) by { if !steps[n].Asked? { OnlyCommandsCount(t, steps, n); } }
      }
    }
  }

  lemma OnlyCommandsCount(t: Tables, steps: seq<LazyStep>, n: nat)
    requires n < |steps| && !steps[n].Asked?
    ensures AgreesAt(t, steps, n)
  {
  }

  /** And after such a run readers see the same status of every handoff in both, now and at every later time. */
  lemma SameStatusSeen(t: Tables, steps: seq<LazyStep>, start: Time, at: Time, id: Id)
    requires OneOfferEach(t.handoffs) && forall id: Id :: id in t.handoffs ==> id < t.nextId
    requires InTime(steps, start) && Punctual(t, steps) && Clock(steps, start) <= at
    requires id in LazyRun(t, steps).handoffs
    ensures id in EagerRun(t, steps).handoffs
    ensures View(LazyRun(t, steps).handoffs[id], at).status == Expiring(EagerRun(t, steps), at).handoffs[id].status
  {
    hide Related, LazyRun, EagerRun, OneOfferEach;
    RunKeepsRelation(t, steps, start);
    ViewsAgree(LazyRun(t, steps), EagerRun(t, steps), Clock(steps, start), at, id);
  }

  lemma RelatedToItself(t: Tables, start: Time)
    requires OneOfferEach(t.handoffs) && forall id: Id :: id in t.handoffs ==> id < t.nextId
    ensures Related(t, t, start)
  {
  }

  // ---- Runs without lag ----

  ghost predicate WithoutLag(steps: seq<LazyStep>)
  {
    forall i :: 0 <= i < |steps| && steps[i].Asked? ==> steps[i].tt == steps[i].clock
  }

  lemma CommandsDatedAtTheirClockNeverStraddle(t: Tables, clock: Time, c: HandoffCommand)
    ensures !Straddles(t, clock, clock, c)
  {
  }

  lemma WithoutLagIsPunctual(t: Tables, steps: seq<LazyStep>)
    requires WithoutLag(steps)
    ensures Punctual(t, steps)
  {
    hide LazyRun, Straddles;
    forall i | 0 <= i < |steps| && steps[i].Asked?
      ensures !Disagrees(LazyRun(t, steps[..i]), steps[i].tt, steps[i].clock, steps[i].command)
    {
      CommandsDatedAtTheirClockNeverStraddle(LazyRun(t, steps[..i]), steps[i].clock, steps[i].command);
    }
  }

  /** When every command is dated at the time it takes effect, no further condition is needed: the same
      commands succeed in both stores, and the same statuses are seen. */
  lemma LazyIsEagerWithoutLag(t: Tables, steps: seq<LazyStep>, start: Time, at: Time)
    requires OneOfferEach(t.handoffs) && forall id: Id :: id in t.handoffs ==> id < t.nextId
    requires InTime(steps, start) && WithoutLag(steps) && Clock(steps, start) <= at
    ensures forall n :: 0 <= n < |steps| ==> AgreesAt(t, steps, n)
    ensures forall id: Id :: id in LazyRun(t, steps).handoffs ==>
      && id in EagerRun(t, steps).handoffs
      && View(LazyRun(t, steps).handoffs[id], at).status == Expiring(EagerRun(t, steps), at).handoffs[id].status
  {
    hide Run, LazyRun, EagerRun, View, OneOfferEach, Punctual, AgreesAt;
    WithoutLagIsPunctual(t, steps);
    SameCommandsSucceed(t, steps, start);
    forall id: Id | id in LazyRun(t, steps).handoffs
      ensures id in EagerRun(t, steps).handoffs
      ensures View(LazyRun(t, steps).handoffs[id], at).status == Expiring(EagerRun(t, steps), at).handoffs[id].status
    {
      SameStatusSeen(t, steps, start, at, id);
    }
  }
}
