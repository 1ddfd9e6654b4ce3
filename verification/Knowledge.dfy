/** Knowledge records: how they are created, how their status changes, and why supersession never
    runs in a circle as long as each command is atomic. */
module Knowledge {
  import opened Wrappers
  import Text
  import Tables

  type Id = Tables.Id
  type Time = Tables.Time
  type Hash = Tables.Hash

  datatype Status = Proposed | Accepted | Disputed | Superseded | Revoked | Expired | Rejected

  predicate Transition(from: Status, to: Status)
  {
    match from
    case Proposed => to in {Accepted, Disputed, Rejected}
    case Disputed => to in {Accepted, Rejected, Revoked}
    case Accepted => to in {Disputed, Superseded, Revoked, Expired}
    case _ => false
  }

  datatype Evidence = Evidence(resource: Id, relation: string, note: string)

  datatype Record = Record(
    title: string, status: Status, validFrom: Time, validTo: Option<Time>, supersededBy: Option<Id>,
    evidence: seq<Evidence>, version: nat)

  datatype CommandType = CreateRecord | ChangeStatus

  datatype CommandKey = CommandKey(commandType: CommandType, key: string)

  datatype Stored = Stored(hash: Hash, body: Option<Record>)

  datatype Event = Event(record: Id, version: nat, status: Status)

  /** The records of a workspace, with their idempotency records and events. */
  datatype Library = Library(records: map<Id, Record>, commands: map<CommandKey, Stored>, events: seq<Event>, nextId: Id)

  datatype Error = NotFound | ResourceNotFound | VersionConflict | InvalidTransition | InvalidInput | IdempotencyConflict | CommandIncomplete | ConstraintViolation

  datatype Effect = Effect(library: Library, record: Record, replayed: bool)

  datatype CreateInput = CreateInput(title: string, validFrom: Option<Time>, validTo: Option<Time>, evidence: seq<Evidence>)

  datatype StatusInput = StatusInput(status: Status, superseding: Option<Id>, expectedVersion: int)

  // ---- Evidence ----

  function NormalRelation(relation: string): string
  {
    var trimmed := Text.ToLower(Text.TrimSpace(relation));
    if trimmed == "" then "supports" else trimmed
  }

  function NormalOne(e: Evidence): Evidence
  {
    e.(relation := NormalRelation(e.relation), note := Text.TrimSpace(e.note))
  }

  predicate HasKey(kept: seq<Evidence>, e: Evidence)
  {
    exists i :: 0 <= i < |kept| && kept[i].resource == e.resource && kept[i].relation == e.relation
  }

  /** One entry per resource and relation, the first one asked for. */
  function NormalEvidence(values: seq<Evidence>): seq<Evidence>
  {
    if values == [] then []
    else
      var before, last := NormalEvidence(values[..|values| - 1]), NormalOne(values[|values| - 1]);
      if HasKey(before, last) then before else before + [last]
  }

  /** Normal evidence never meets the primary key of the evidence table, covers what was asked, and of the
      entries with one key holds the one that was asked for first. */
  lemma {:induction false} EvidenceNormalForm(values: seq<Evidence>)
    ensures var r := NormalEvidence(values);
      && (forall i, j :: 0 <= i < j < |r| ==> r[i].resource != r[j].resource || r[i].relation != r[j].relation)
      && (forall i :: 0 <= i < |values| ==> HasKey(r, NormalOne(values[i])))
      && (forall e :: e in r ==> exists i :: FirstAsked(values, e, i))
  {
    hide NormalOne;
    if values != [] {
      var rest := values[..|values| - 1];
      var before, last := NormalEvidence(rest), NormalOne(values[|values| - 1]);
      EvidenceNormalForm(rest);
      EvidenceCovers(rest, values[|values| - 1], before);
      assert values == rest + [values[|values| - 1]];
      if !HasKey(before, last) {
        EvidenceDiffers(before, last);
        EvidenceIsFirst(rest, values[|values| - 1], before);
      }
      hide HasKey;
      forall e | e in NormalEvidence(values) ensures exists i :: FirstAsked(values, e, i) {
        if e in before {
          var i :| FirstAsked(rest, e, i);
          assert FirstAsked(values, e, i);
        }
      }
    }
  }

  /** The entry is the normal form of the i-th value, and no value before that one has its key. */
  ghost predicate FirstAsked(values: seq<Evidence>, e: Evidence, i: int)
  {
    && 0 <= i < |values|
    && e == NormalOne(values[i])
    && forall j :: 0 <= j < i ==> NormalOne(values[j]).resource != e.resource || NormalOne(values[j]).relation != e.relation
  }

  lemma EvidenceIsFirst(rest: seq<Evidence>, value: Evidence, before: seq<Evidence>)
    requires forall i :: 0 <= i < |rest| ==> HasKey(before, NormalOne(rest[i]))
    requires !HasKey(before, NormalOne(value))
    ensures FirstAsked(rest + [value], NormalOne(value), |rest|)
  {
    hide NormalOne;
    forall j | 0 <= j < |rest|
      ensures NormalOne((rest + [value])[j]).resource != NormalOne(value).resource || NormalOne((rest + [value])[j]).relation != NormalOne(value).relation
    {
      assert HasKey(before, NormalOne(rest[j]));
    }
  }

  lemma EvidenceDiffers(before: seq<Evidence>, last: Evidence)
    requires !HasKey(before, last)
    ensures forall i :: 0 <= i < |before| ==> before[i].resource != last.resource || before[i].relation != last.relation
  {
  }

  /** One more value keeps everything covered. */
  lemma EvidenceCovers(rest: seq<Evidence>, value: Evidence, before: seq<Evidence>)
    requires forall i :: 0 <= i < |rest| ==> HasKey(before, NormalOne(rest[i]))
    ensures var last := NormalOne(value);
      forall i :: 0 <= i < |rest + [value]| ==> HasKey(if HasKey(before, last) then before else before + [last], NormalOne((rest + [value])[i]))
  {
    HasKeySnoc(before, NormalOne(value));
    hide NormalOne, HasKey;
  }

  lemma HasKeyGrows(kept: seq<Evidence>, last: Evidence)
    ensures forall e :: HasKey(kept, e) ==> HasKey(kept + [last], e)
  {
    forall e | HasKey(kept, e) ensures HasKey(kept + [last], e) {
      var i :| 0 <= i < |kept| && kept[i].resource == e.resource && kept[i].relation == e.relation;
      assert (kept + [last])[i] == kept[i];
    }
  }

  predicate KnownRelation(relation: string)
  {
    relation in {"supports", "contradicts", "origin", "validates"}
  }

  // ---- Commands ----

  function Lookup(l: Library, key: CommandKey, hash: Hash): Result<Option<Record>, Error>
  {
    if key !in l.commands then Ok(None)
    else if l.commands[key].hash != hash then Err(IdempotencyConflict)
    else if l.commands[key].body.None? then Err(CommandIncomplete)
    else Ok(l.commands[key].body)
  }

  /** A row, its event and the completed command, in one commit. */
  function Commit(l: Library, id: Id, row: Record, key: CommandKey, hash: Hash): Library
  {
    Library(l.records[id := row], l.commands[key := Stored(hash, Some(row))], l.events + [Event(id, row.version, row.status)],
            if id < l.nextId then l.nextId else id + 1)
  }

  function NewRow(tt: Time, input: CreateInput): Record
  {
    Record(input.title, Proposed, if input.validFrom.Some? then input.validFrom.value else tt, input.validTo, None,
           NormalEvidence(input.evidence), 1)
  }

  predicate ValidityHolds(row: Record)
  {
    row.validTo.Some? ==> row.validFrom <= row.validTo.value
  }

  function CreateEffect(l: Library, tt: Time, key: string, hash: Hash, resources: set<Id>, input: CreateInput): Result<Effect, Error>
  {
    var command := CommandKey(CreateRecord, key);
    var row := NewRow(tt, input);
    if input.validFrom.Some? && input.validTo.Some? && input.validTo.value < input.validFrom.value then Err(InvalidInput)
    else if exists e :: e in row.evidence && !KnownRelation(e.relation) then Err(InvalidInput)
    else
      var stored :- Lookup(l, command, hash);
      if stored.Some? then Ok(Effect(l, stored.value, true))
      else if !ValidityHolds(row) then Err(InvalidInput)
      else if exists e :: e in row.evidence && e.resource !in resources then Err(ResourceNotFound)
      else Ok(Effect(Commit(l, l.nextId, row, command, hash), row, false))
  }

  /** The service's checks on a status change: superseding needs another record, nothing else takes one. */
  predicate WellAsked(record: Id, input: StatusInput)
  {
    && input.status != Proposed
    && input.expectedVersion >= 1
    && (if input.status.Superseded? then input.superseding.Some? && input.superseding.value != record else input.superseding.None?)
  }

  predicate Ends(status: Status)
  {
    status.Superseded? || status.Revoked? || status.Expired?
  }

  function ChangedRow(row: Record, tt: Time, input: StatusInput): Record
  {
    row.(status := input.status, supersededBy := input.superseding,
         validTo := if Ends(input.status) then Some(tt) else row.validTo, version := row.version + 1)
  }

  function TargetRefusal(l: Library, superseding: Option<Id>): Option<Error>
  {
    if superseding.None? then None
    else if superseding.value !in l.records then Some(NotFound)
    else if !l.records[superseding.value].status.Accepted? then Some(InvalidInput)
    else None
  }

  function StatusEffect(l: Library, tt: Time, record: Id, key: string, hash: Hash, input: StatusInput): Result<Effect, Error>
  {
    var command := CommandKey(ChangeStatus, key);
    if !WellAsked(record, input) then Err(InvalidInput)
    else
      var stored :- Lookup(l, command, hash);
      if stored.Some? then Ok(Effect(l, stored.value, true))
      else if record !in l.records then Err(NotFound)
      else if l.records[record].version != input.expectedVersion then Err(VersionConflict)
      else if !Transition(l.records[record].status, input.status) then Err(InvalidTransition)
      else if TargetRefusal(l, input.superseding).Some? then Err(TargetRefusal(l, input.superseding).value)
      else
        var row := ChangedRow(l.records[record], tt, input);
        if !ValidityHolds(row) then Err(ConstraintViolation) else Ok(Effect(Commit(l, record, row, command, hash), row, false))
  }

  ghost predicate Settled(before: Library, after: Library, outcome: Result<(Record, bool), Error>, spec: Result<Effect, Error>)
  {
    match spec
    case Ok(effect) => after == effect.library && outcome == Ok((effect.record, effect.replayed))
    case Err(error) => after == before && outcome == Err(error)
  }

  class PostgresRepository {
    var library: Library

    constructor ()
      ensures library == Library(map[], map[], [], 0)
    {
      library := Library(map[], map[], [], 0);
    }

    /** normalizeEvidence: one pass with a map of the keys already seen. */
    method Normalize(values: seq<Evidence>) returns (r: seq<Evidence>)
      ensures r == NormalEvidence(values)
    {
      NoKeys();
      hide NormalOne, HasKey;
      r := [];
      var seen: set<(Id, string)> := {};
      var i := 0;
      while i < |values|
        invariant 0 <= i <= |values|
        invariant r == NormalEvidence(values[..i])
        invariant forall e :: HasKey(r, e) <==> (e.resource, e.relation) in seen
      {
        assert values[..i + 1][..i] == values[..i];
        var e := NormalOne(values[i]);
        if (e.resource, e.relation) !in seen {
          HasKeySnoc(r, e);
          seen := seen + {(e.resource, e.relation)};
          r := r + [e];
        }
        i := i + 1;
      }
      assert values[..i] == values;
    }

    /** The insertion loop: evidence on an unknown resource stops the command. */
    method AttachEvidence(resources: set<Id>, evidence: seq<Evidence>) returns (known: bool)
      ensures known <==> forall e :: e in evidence ==> e.resource in resources
    {
      var i := 0;
      while i < |evidence|
        invariant 0 <= i <= |evidence|
        invariant forall e :: e in evidence[..i] ==> e.resource in resources
      {
        if evidence[i].resource !in resources {
          return false;
        }
        i := i + 1;
      }
      assert evidence[..i] == evidence;
      return true;
    }

    method CreateRecord(tt: Time, key: string, hash: Hash, resources: set<Id>, input: CreateInput) returns (outcome: Result<(Record, bool), Error>)
      modifies this
      ensures Settled(old(library), library, outcome, CreateEffect(old(library), tt, key, hash, resources, input))
    {
      hide NormalEvidence;
      var evidence := Normalize(input.evidence);
      if input.validFrom.Some? && input.validTo.Some? && input.validTo.value < input.validFrom.value {
        return Err(InvalidInput);
      }
      if exists e :: e in evidence && !KnownRelation(e.relation) {
        return Err(InvalidInput);
      }
      var command := CommandKey(CommandType.CreateRecord, key);
      var stored := Lookup(library, command, hash);
      if stored.Err? {
        return Err(stored.error);
      }
      if stored.value.Some? {
        return Ok((stored.value.value, true));
      }
      var row := Record(input.title, Proposed, if input.validFrom.Some? then input.validFrom.value else tt, input.validTo, None, evidence, 1);
      if !ValidityHolds(row) {
        return Err(InvalidInput);
      }
      var known := AttachEvidence(resources, evidence);
      if !known {
        return Err(ResourceNotFound);
      }
      library := Commit(library, library.nextId, row, command, hash);
      return Ok((row, false));
    }

    method UpdateRecordStatus(tt: Time, record: Id, key: string, hash: Hash, input: StatusInput) returns (outcome: Result<(Record, bool), Error>)
      modifies this
      ensures Settled(old(library), library, outcome, StatusEffect(old(library), tt, record, key, hash, input))
    {
      if !WellAsked(record, input) {
        return Err(InvalidInput);
      }
      var command := CommandKey(ChangeStatus, key);
      var stored := Lookup(library, command, hash);
      if stored.Err? {
        return Err(stored.error);
      }
      if stored.value.Some? {
        return Ok((stored.value.value, true));
      }
      if record !in library.records {
        return Err(NotFound);
      }
      var current := library.records[record];
      if current.version != input.expectedVersion {
        return Err(VersionConflict);
      }
      if !Transition(current.status, input.status) {
        return Err(InvalidTransition);
      }
      if input.superseding.Some? {
        var target := input.superseding.value;
        if target !in library.records {
          return Err(NotFound);
        }
        if !library.records[target].status.Accepted? {
          return Err(InvalidInput);
        }
      }
      var row := ChangedRow(current, tt, input);
      if !ValidityHolds(row) {
        return Err(ConstraintViolation);
      }
      library := Commit(library, record, row, command, hash);
      return Ok((row, false));
    }
  }

  lemma NoKeys()
    ensures forall e :: !HasKey([], e)
  {
  }

  lemma HasKeySnoc(kept: seq<Evidence>, last: Evidence)
    ensures forall e :: HasKey(kept + [last], e) <==> HasKey(kept, e) || (e.resource == last.resource && e.relation == last.relation)
  {
    HasKeyGrows(kept, last);
    assert (kept + [last])[|kept|] == last;
  }
}
