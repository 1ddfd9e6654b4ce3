/** What the knowledge commands accept and what they store, row by row. */
module KnowledgeRules {
  import opened Wrappers
  import opened Text
  import opened Knowledge

  // ---- The request ----

  /** Whether a relation is one of the four, whatever its case and the white space around it; a blank one
      stands for "supports". */
  predicate Relates(relation: string)
  {
    ToLower(TrimSpace(relation)) in {"", "supports", "contradicts", "origin", "validates"}
  }

  function FromOf(tt: Time, input: CreateInput): Time
  {
    match input.validFrom
    case Some(from) => from
    case None => tt
  }

  /** The key is free, or belongs to a completed command with this digest. */
  predicate Unused(l: Library, command: CommandKey)
  {
    command !in l.commands
  }

  predicate Repeats(l: Library, command: CommandKey, hash: Hash)
  {
    command in l.commands && l.commands[command].hash == hash && l.commands[command].body.Some?
  }

  predicate Creatable(tt: Time, resources: set<Id>, input: CreateInput)
  {
    && (input.validTo.Some? ==> FromOf(tt, input) <= input.validTo.value)
    && (forall i :: 0 <= i < |input.evidence| ==> input.evidence[i].resource in resources)
  }

  /** What a retry must satisfy too: the window as it was asked, and the relations. */
  predicate Sensible(input: CreateInput)
  {
    && (input.validFrom.Some? && input.validTo.Some? ==> input.validFrom.value <= input.validTo.value)
    && (forall i :: 0 <= i < |input.evidence| ==> Relates(input.evidence[i].relation))
  }

  // ---- What a command stores ----

  /** One row, its event and its completed record; every other row and record stays. */
  ghost predicate Stores(l: Library, command: CommandKey, hash: Hash, id: Id, e: Effect)
  {
    && !e.replayed
    && e.library.records == l.records[id := e.record]
    && e.library.commands == l.commands[command := Stored(hash, Some(e.record))]
    && e.library.events == l.events + [Event(id, e.record.version, e.record.status)]
  }

  ghost predicate Repeated(l: Library, command: CommandKey, e: Effect)
  {
    e.replayed && e.library == l && command in l.commands && l.commands[command].body == Some(e.record)
  }

  ghost predicate Proposes(l: Library, tt: Time, input: CreateInput, e: Effect)
  {
    && e.record.title == input.title && e.record.status == Proposed && e.record.version == 1 && e.record.supersededBy == None
    && e.record.validFrom == FromOf(tt, input) && e.record.validTo == input.validTo
    && e.library.nextId == l.nextId + 1
    && Evidenced(input.evidence, e.record.evidence)
  }

  /** The evidence as it was asked for: relations in lower case, notes trimmed, and one entry for each
      resource and relation, the first. */
  ghost predicate Evidenced(asked: seq<Evidence>, stored: seq<Evidence>)
  {
    && (forall i, j :: 0 <= i < j < |stored| ==> stored[i].resource != stored[j].resource || stored[i].relation != stored[j].relation)
    && (forall i :: 0 <= i < |asked| ==> HasEntry(stored, asked[i]))
    && (forall k :: 0 <= k < |stored| ==> IsAsked(asked, stored[k]))
  }

  ghost predicate HasEntry(stored: seq<Evidence>, asked: Evidence)
  {
    exists k :: 0 <= k < |stored| && SameKey(stored[k], asked)
  }

  ghost predicate IsAsked(asked: seq<Evidence>, stored: Evidence)
  {
    exists i :: 0 <= i < |asked| && First(asked, i) && StoredAs(asked[i], stored)
  }

  function RelationOf(asked: string): string
  {
    match ToLower(TrimSpace(asked))
    case "" => "supports"
    case other => other
  }

  predicate SameKey(stored: Evidence, asked: Evidence)
  {
    stored.resource == asked.resource && stored.relation == RelationOf(asked.relation)
  }

  predicate StoredAs(asked: Evidence, stored: Evidence)
  {
    SameKey(stored, asked) && stored.note == TrimSpace(asked.note)
  }

  ghost predicate First(asked: seq<Evidence>, i: int)
    requires 0 <= i < |asked|
  {
    forall j :: 0 <= j < i ==> asked[j].resource != asked[i].resource || RelationOf(asked[j].relation) != RelationOf(asked[i].relation)
  }

  lemma NormalOneMeans(e: Evidence)
    ensures StoredAs(e, NormalOne(e)) && NormalOne(e).resource == e.resource && NormalOne(e).relation == RelationOf(e.relation)
    ensures KnownRelation(NormalOne(e).relation) <==> Relates(e.relation)
  {
  }

  lemma EvidenceMeans(asked: seq<Evidence>)
    ensures Evidenced(asked, NormalEvidence(asked))
  {
    EvidenceNormalForm(asked);
    hide NormalOne, NormalEvidence, HasKey, FirstAsked, HasEntry, IsAsked;
    var stored := NormalEvidence(asked);
    forall i | 0 <= i < |asked| ensures HasEntry(stored, asked[i]) {
      Covered(stored, asked[i]);
    }
    forall k | 0 <= k < |stored| ensures IsAsked(asked, stored[k]) {
      StoredFirst(asked, k);
    }
  }

  lemma Covered(stored: seq<Evidence>, asked: Evidence)
    requires HasKey(stored, NormalOne(asked))
    ensures HasEntry(stored, asked)
  {
    NormalOneMeans(asked);
    hide NormalOne, RelationOf;
    var k :| 0 <= k < |stored| && stored[k].resource == NormalOne(asked).resource && stored[k].relation == NormalOne(asked).relation;
    assert SameKey(stored[k], asked);
  }

  lemma StoredFirst(asked: seq<Evidence>, k: nat)
    requires k < |NormalEvidence(asked)|
    ensures IsAsked(asked, NormalEvidence(asked)[k])
  {
    EvidenceNormalForm(asked);
    var e := NormalEvidence(asked)[k];
    hide NormalOne, NormalEvidence, RelationOf;
    assert e in NormalEvidence(asked);
    var i :| FirstAsked(asked, e, i);
    NormalOneMeans(asked[i]);
    forall j | 0 <= j < i ensures asked[j].resource != asked[i].resource || RelationOf(asked[j].relation) != RelationOf(asked[i].relation) {
      NormalOneMeans(asked[j]);
    }
    assert First(asked, i) && StoredAs(asked[i], e);
  }

  lemma RelationsMean(asked: seq<Evidence>)
    ensures (exists e :: e in NormalEvidence(asked) && !KnownRelation(e.relation)) <==> !(forall i :: 0 <= i < |asked| ==> Relates(asked[i].relation))
  {
    EvidenceNormalForm(asked);
    forall i | 0 <= i < |asked| ensures KnownRelation(NormalOne(asked[i]).relation) <==> Relates(asked[i].relation) {
      NormalOneMeans(asked[i]);
    }
    hide NormalOne, NormalEvidence, Relates, KnownRelation;
    forall i | 0 <= i < |asked| && !Relates(asked[i].relation) ensures exists e :: e in NormalEvidence(asked) && !KnownRelation(e.relation) {
      assert HasKey(NormalEvidence(asked), NormalOne(asked[i]));
    }
  }

  lemma ResourcesMean(asked: seq<Evidence>, resources: set<Id>)
    ensures (exists e :: e in NormalEvidence(asked) && e.resource !in resources) <==> !(forall i :: 0 <= i < |asked| ==> asked[i].resource in resources)
  {
    EvidenceNormalForm(asked);
    forall i | 0 <= i < |asked| ensures NormalOne(asked[i]).resource == asked[i].resource {
      NormalOneMeans(asked[i]);
    }
    hide NormalOne, NormalEvidence;
    forall i | 0 <= i < |asked| && asked[i].resource !in resources ensures exists e :: e in NormalEvidence(asked) && e.resource !in resources {
      assert HasKey(NormalEvidence(asked), NormalOne(asked[i]));
    }
  }

  /** Creating a record succeeds if and only if the request is sensible and is either a repetition or,
      under a free key, a window that holds and known resources; and then it stores exactly that. */
  lemma CreateExactly(l: Library, tt: Time, key: string, hash: Hash, resources: set<Id>, input: CreateInput)
    ensures var r, command := CreateEffect(l, tt, key, hash, resources, input), CommandKey(CreateRecord, key);
      && (r.Ok? <==> Sensible(input) && (Repeats(l, command, hash) || (Unused(l, command) && Creatable(tt, resources, input))))
      && (r.Ok? && !Unused(l, command) ==> Repeated(l, command, r.value))
      && (r.Ok? && Unused(l, command) ==> Stores(l, command, hash, l.nextId, r.value) && Proposes(l, tt, input, r.value))
  {
    EvidenceMeans(input.evidence);
    RelationsMean(input.evidence);
    ResourcesMean(input.evidence, resources);
    hide Evidenced, NormalEvidence, Relates, KnownRelation;
  }

  // ---- Changing a status ----

  /** The moves of the life cycle. */
  predicate Moves(from: Status, to: Status)
  {
    (from, to) in {
      (Proposed, Accepted), (Proposed, Disputed), (Proposed, Rejected),
      (Disputed, Accepted), (Disputed, Rejected), (Disputed, Revoked),
      (Accepted, Disputed), (Accepted, Superseded), (Accepted, Revoked), (Accepted, Expired)}
  }

  /** A record is superseded by another one, and by one only; no other change names one. */
  predicate NamesTarget(record: Id, input: StatusInput)
  {
    match input.superseding
    case Some(target) => input.status == Superseded && target != record
    case None => input.status != Superseded
  }

  predicate AskedWell(record: Id, input: StatusInput)
  {
    input.status != Proposed && input.expectedVersion > 0 && NamesTarget(record, input)
  }

  predicate Current(l: Library, record: Id, input: StatusInput)
  {
    record in l.records && l.records[record].version == input.expectedVersion
  }

  predicate AcceptedTarget(l: Library, input: StatusInput)
  {
    input.superseding.Some? ==> input.superseding.value in l.records && l.records[input.superseding.value].status == Accepted
  }

  /** The window that the changed row would show: it ends now, unless the record stays in force or never was. */
  predicate WindowHolds(row: Record, tt: Time, status: Status)
  {
    if status in {Superseded, Revoked, Expired} then row.validFrom <= tt
    else row.validTo.None? || row.validFrom <= row.validTo.value
  }

  predicate Changeable(l: Library, tt: Time, record: Id, input: StatusInput)
  {
    && Current(l, record, input)
    && Moves(l.records[record].status, input.status)
    && AcceptedTarget(l, input)
    && WindowHolds(l.records[record], tt, input.status)
  }

  ghost predicate Changes(before: Record, tt: Time, input: StatusInput, e: Effect)
  {
    && e.record.status == input.status && e.record.supersededBy == input.superseding && e.record.version == before.version + 1
    && e.record.validTo == (if input.status in {Superseded, Revoked, Expired} then Some(tt) else before.validTo)
    && e.record.title == before.title && e.record.validFrom == before.validFrom && e.record.evidence == before.evidence
  }

  lemma TransitionsAreMoves(from: Status, to: Status)
    ensures Transition(from, to) <==> Moves(from, to)
  {
  }

  /** Changing a status succeeds if and only if it is well asked and is either a repetition or, under a free
      key, a move of the life cycle at the version seen, to a standing superseder and with a window that
      holds; and then it stores exactly that. */
  lemma ChangeExactly(l: Library, tt: Time, record: Id, key: string, hash: Hash, input: StatusInput)
    ensures var r, command := StatusEffect(l, tt, record, key, hash, input), CommandKey(ChangeStatus, key);
      && (r.Ok? <==> AskedWell(record, input) && (Repeats(l, command, hash) || (Unused(l, command) && Changeable(l, tt, record, input))))
      && (r.Ok? && !Unused(l, command) ==> Repeated(l, command, r.value))
      && (r.Ok? && Unused(l, command) ==> Stores(l, command, hash, record, r.value) && Changes(l.records[record], tt, input, r.value))
  {
    if record in l.records {
      TransitionsAreMoves(l.records[record].status, input.status);
    }
    hide Moves, Transition;
  }

  /** Why a change is refused: the first condition, in this order, that fails. */
  lemma ChangeRefusedFor(l: Library, tt: Time, record: Id, key: string, hash: Hash, input: StatusInput)
    requires AskedWell(record, input) && Unused(l, CommandKey(ChangeStatus, key))
    ensures var r := StatusEffect(l, tt, record, key, hash, input);
      && (record !in l.records ==> r == Err(NotFound))
      && (record in l.records && !Current(l, record, input) ==> r == Err(VersionConflict))
      && (Current(l, record, input) && !Moves(l.records[record].status, input.status) ==> r == Err(InvalidTransition))
      && (Current(l, record, input) && Moves(l.records[record].status, input.status) ==>
            && (input.superseding.Some? && input.superseding.value !in l.records ==> r == Err(NotFound))
            && (input.superseding.Some? && input.superseding.value in l.records && !AcceptedTarget(l, input) ==> r == Err(InvalidInput))
            && (AcceptedTarget(l, input) && !WindowHolds(l.records[record], tt, input.status) ==> r == Err(ConstraintViolation)))
  {
    if record in l.records {
      TransitionsAreMoves(l.records[record].status, input.status);
    }
    hide Moves, Transition;
  }
}
