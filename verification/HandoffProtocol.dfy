/** The handoff protocol over whole runs. */
module HandoffProtocol {
  import opened Wrappers
  import opened Tables
  import opened Commands
  import opened Server
  import opened Frames
  import opened Work
  import Handoffs

  /** What holds of every stored handoff: an open offer is untouched; an accepted one names another
      actor and was accepted before its deadline. */
  ghost predicate RowSound(row: Handoff)
  {
    && row.offeredAt < row.expiresAt
    && match row.status
       case Offered => row.version == 1 && row.respondedAt.None? && row.to.None? && row.toSession.None?
       case Accepted =>
         && row.version == 2 && row.to.Some? && row.to.value != row.from && row.toSession.Some?
         && row.respondedAt.Some? && row.respondedAt.value < row.expiresAt
       case Withdrawn => row.version == 2 && row.to.None? && row.respondedAt.Some? && row.respondedAt.value < row.expiresAt
       case HandoffExpired => row.version == 2 && row.to.None? && row.respondedAt.Some? && row.expiresAt <= row.respondedAt.value
  }

  ghost predicate RowsSound(handoffs: map<Id, Handoff>, intents: map<Id, Intent>)
  {
    forall id: Id :: id in handoffs ==> handoffs[id].intent in intents && RowSound(handoffs[id])
  }

  predicate OpenOffer(handoffs: map<Id, Handoff>, id: Id)
  {
    id in handoffs && handoffs[id].status.Offered?
  }

  /** Every intent has at most one stored open offer. */
  ghost predicate OneOfferEach(handoffs: map<Id, Handoff>)
  {
    forall a: Id, b: Id :: OpenOffer(handoffs, a) && OpenOffer(handoffs, b) && handoffs[a].intent == handoffs[b].intent ==> a == b
  }

  ghost predicate HandoffsSound(t: Tables)
  {
    RowsSound(t.handoffs, t.intents) && OneOfferEach(t.handoffs)
  }

  /** Answers are final: a handoff that is no longer open keeps its row for ever. */
  ghost predicate AnswersStay(t: Tables, r: Tables)
  {
    forall id: Id :: id in t.handoffs ==> id in r.handoffs && (t.handoffs[id].status.Offered? || r.handoffs[id] == t.handoffs[id])
  }

  lemma HandoffsKept(t: Tables, tt: Time, c: Command, e: Effect)
    requires Fresh(t, tt, c, e) && Numbered(t) && HandoffsSound(t)
    ensures HandoffsSound(e.tables) && AnswersStay(t, e.tables)
  {
    FreshIsFramed(t, tt, c, e);
    hide RowsSound, OneOfferEach, Handoffs.OfferMade, Handoffs.Answered;
    if c.OfferHandoff? {
      ByOffer(t, tt, c.intent, c.key, c.hash, c.offer, e);
    } else if c.AnswerHandoff? {
      ByAnswer(t, tt, c.allowAll, c.intent, c.handoff, c.key, c.hash, c.answer, e);
    } else {
      hide Fresh;
      IntentsStay(t, tt, c, e);
    }
  }

  lemma IntentsStay(t: Tables, tt: Time, c: Command, e: Effect)
    requires Fresh(t, tt, c, e) && Framed(t, c, e.tables) && !MovesHandoffs(c) && RowsSound(t.handoffs, t.intents)
    ensures RowsSound(e.tables.handoffs, e.tables.intents)
  {
    hide RowSound;
  }

  lemma ByExpiry(t: Tables, tt: Time, intent: Id, command: Id, r: Tables)
    requires Handoffs.Expired(t, tt, intent, command, r) && HandoffsSound(t)
    ensures HandoffsSound(r) && AnswersStay(t, r)
  {
    hide Handoffs.LapsedOffer;
  }

  lemma ByInsertion(
    m: Tables, tt: Time, command: CommandKey, commandId: Id, intent: Id, actor: Agent, input: Handoffs.OfferInput, e: Effect)
    requires Handoffs.OfferedOn(m, tt, command, commandId, intent, actor, input, e) && HandoffsSound(m)
    requires intent in m.intents && input.hours > 0 && !Handoffs.HasOffer(m, intent) && m.nextId !in m.handoffs
    ensures HandoffsSound(e.tables) && AnswersStay(m, e.tables)
  {
  }

  lemma ByOffer(t: Tables, tt: Time, intent: Id, key: string, hash: Hash, input: Handoffs.OfferInput, e: Effect)
    requires Handoffs.OfferMade(t, tt, intent, key, hash, input, e) && HandoffsSound(t)
    requires forall id: Id :: id in t.handoffs ==> id < t.nextId
    ensures HandoffsSound(e.tables) && AnswersStay(t, e.tables)
  {
    hide Handoffs.ExpireLapsed, Handoffs.LapsedOffer, Handoffs.HasOffer, Handoffs.OfferedOn, Reserve, RowSound, OneOfferEach;
    var command := CommandKey(HandoffOffer, key);
    ReserveFrame(t, command, hash);
    var reserved := Reserve(t, command, hash);
    var m := Handoffs.ExpireLapsed(reserved, tt, intent, t.nextId);
    ByExpiry(reserved, tt, intent, t.nextId, m);
    ByInsertion(m, tt, command, t.nextId, intent, t.sessions[input.session].actor, input, e);
  }

  lemma ByAnswer(t: Tables, tt: Time, allowAll: bool, intent: Id, handoff: Id, key: string, hash: Hash, input: Handoffs.AnswerInput, e: Effect)
    requires Handoffs.Answered(t, tt, allowAll, intent, handoff, key, hash, input, e) && HandoffsSound(t)
    ensures HandoffsSound(e.tables) && AnswersStay(t, e.tables)
  {
  }
}
