/** Supersession as a graph: every record has at most one edge, to the record that superseded it. */
module Supersession {
  import opened Wrappers
  import opened Knowledge
  import Slugs

  // ---- The graph ----

  function Target(records: map<Id, Record>, id: Id): Option<Id>
  {
    if id in records then records[id].supersededBy else None
  }

  /** Following n edges from a leads to b. */
  predicate Leads(records: map<Id, Record>, a: Id, b: Id, n: nat)
    decreases n
  {
    if n == 0 then a == b
    else Target(records, a).Some? && Leads(records, Target(records, a).value, b, n - 1)
  }

  ghost predicate Reaches(records: map<Id, Record>, a: Id, b: Id)
  {
    exists n: nat :: Leads(records, a, b, n)
  }

  /** No record is superseded, through however many others, by itself. */
  ghost predicate Acyclic(records: map<Id, Record>)
  {
    forall a: Id, n: nat :: n > 0 ==> !Leads(records, a, a, n)
  }

  lemma {:induction false} LeadsConcat(records: map<Id, Record>, a: Id, b: Id, c: Id, m: nat, n: nat)
    requires Leads(records, a, b, m) && Leads(records, b, c, n)
    ensures Leads(records, a, c, m + n)
    decreases m
  {
    if m > 0 {
      LeadsConcat(records, Target(records, a).value, b, c, m - 1, n);
    }
  }

  /** The walk first reaches a after m edges, all of them in s. */
  ghost predicate PassesAt(r: map<Id, Record>, s: map<Id, Record>, a: Id, x: Id, y: Id, n: nat, m: nat)
  {
    m < n && Leads(s, x, a, m) && Leads(r, a, y, n - m)
  }

  /** A walk that never leaves from a is the same walk when only the edge of a differs. */
  lemma {:induction false} WalkAvoiding(r: map<Id, Record>, s: map<Id, Record>, a: Id, x: Id, y: Id, n: nat)
    requires forall id: Id :: id != a ==> Target(r, id) == Target(s, id)
    requires Leads(r, x, y, n)
    ensures Leads(s, x, y, n) || exists m: nat :: PassesAt(r, s, a, x, y, n, m)
    decreases n
  {
    if n > 0 {
      if x == a {
        assert PassesAt(r, s, a, x, y, n, 0);
      } else {
        var next := Target(r, x).value;
        WalkAvoiding(r, s, a, next, y, n - 1);
        if !Leads(s, next, y, n - 1) {
          var m: nat :| PassesAt(r, s, a, next, y, n - 1, m);
          assert PassesAt(r, s, a, x, y, n, m + 1);
        }
      }
    }
  }

  /** The shortest way round a cycle through a passes a only once, so it gives a walk back to a. */
  lemma {:induction false} ClosingWalk(before: map<Id, Record>, after: map<Id, Record>, a: Id, x: Id, n: nat)
    requires forall id: Id :: id != a ==> Target(after, id) == Target(before, id)
    requires Leads(after, x, a, n)
    ensures Reaches(before, x, a)
  {
    WalkAvoiding(after, before, a, x, a, n);
  }

  /** A new edge from a to b, where a had none: the graph stays acyclic if and only if a cannot be
      reached from b. */
  lemma EdgeKeepsAcyclic(before: map<Id, Record>, after: map<Id, Record>, a: Id, b: Id)
    requires Acyclic(before) && Target(before, a).None? && Target(after, a) == Some(b)
    requires forall id: Id :: id != a ==> Target(after, id) == Target(before, id)
    ensures Acyclic(after) <==> !Reaches(before, b, a)
  {
    if Reaches(before, b, a) {
      var n: nat :| Leads(before, b, a, n);
      WalkWithoutEdge(before, after, a, b, n);
      assert Leads(after, a, a, n + 1);
    }
    if !Acyclic(after) {
      var x: Id, n: nat :| n > 0 && Leads(after, x, x, n);
      WalkAvoiding(after, before, a, x, x, n);
      assert !Leads(before, x, x, n);
      var m: nat :| PassesAt(after, before, a, x, x, n, m);
      assert Leads(after, b, x, n - m - 1);
      RoundTrip(before, after, a, b, x, m, n - m - 1);
    }
  }

  /** A walk that ends at a, which had no edge, is a walk in the new graph too. */
  lemma {:induction false} WalkWithoutEdge(before: map<Id, Record>, after: map<Id, Record>, a: Id, x: Id, n: nat)
    requires Target(before, a).None? && Leads(before, x, a, n)
    requires forall id: Id :: id != a ==> Target(after, id) == Target(before, id)
    ensures Leads(after, x, a, n)
    decreases n
  {
    if n > 0 {
      WalkWithoutEdge(before, after, a, Target(before, x).value, n - 1);
    }
  }

  lemma RoundTrip(before: map<Id, Record>, after: map<Id, Record>, a: Id, b: Id, x: Id, m: nat, k: nat)
    requires forall id: Id :: id != a ==> Target(after, id) == Target(before, id)
    requires Target(before, a).None? && Leads(before, x, a, m) && Leads(after, b, x, k)
    ensures Reaches(before, b, a)
  {
    WalkWithoutEdge(before, after, a, x, m);
    LeadsConcat(after, b, x, a, k, m);
    ClosingWalk(before, after, a, b, k + m);
  }

  // ---- Following edges ends ----

  /** The records that are superseded. */
  function Sources(records: map<Id, Record>): set<Id>
  {
    set id | id in records && records[id].supersededBy.Some?
  }

  /** The records visited by the first n edges from a. */
  function Visited(records: map<Id, Record>, a: Id, n: nat): set<Id>
    decreases n
  {
    if n == 0 || Target(records, a).None? then {} else {a} + Visited(records, Target(records, a).value, n - 1)
  }

  lemma {:induction false} VisitedAreReached(records: map<Id, Record>, a: Id, n: nat, x: Id)
    requires x in Visited(records, a, n)
    ensures Reaches(records, a, x) && x in Sources(records)
    decreases n
  {
    if x == a {
      assert Leads(records, a, a, 0);
    } else {
      var next := Target(records, a).value;
      VisitedAreReached(records, next, n - 1, x);
      var m: nat :| Leads(records, next, x, m);
      assert Leads(records, a, x, m + 1);
    }
  }

  /** A walk of n edges in an acyclic graph visits n different records. */
  lemma {:induction false} WalksNeverRepeat(records: map<Id, Record>, a: Id, b: Id, n: nat)
    requires Acyclic(records) && Leads(records, a, b, n)
    ensures |Visited(records, a, n)| == n
    decreases n
  {
    if n > 0 {
      var next := Target(records, a).value;
      WalksNeverRepeat(records, next, b, n - 1);
      if a in Visited(records, next, n - 1) {
        VisitedAreReached(records, next, n - 1, a);
        var m: nat :| Leads(records, next, a, m);
        assert Leads(records, a, a, m + 1);
      }
    }
  }

  lemma WalksAreShort(records: map<Id, Record>, a: Id, b: Id, n: nat)
    requires Acyclic(records) && Leads(records, a, b, n)
    ensures n <= |Sources(records)|
  {
    WalksNeverRepeat(records, a, b, n);
    forall x | x in Visited(records, a, n) ensures x in Sources(records) {
      VisitedAreReached(records, a, n, x);
    }
    Slugs.SubsetSize(Visited(records, a, n), Sources(records));
  }

  /** Following the edges from a record to the one that stands in the end. */
  function Standing(records: map<Id, Record>, a: Id, start: Id, walked: nat): (r: Id)
    requires Acyclic(records) && Leads(records, start, a, walked)
    ensures Target(records, r).None? && Reaches(records, a, r)
    decreases |Sources(records)| - walked
  {
    WalksAreShort(records, start, a, walked);
    if Target(records, a).None? then
      assert Leads(records, a, a, 0);
      a
    else
      var next := Target(records, a).value;
      assert Leads(records, a, next, 1) by { assert Leads(records, next, next, 0); }
      LeadsConcat(records, start, a, next, walked, 1);
      WalksAreShort(records, start, next, walked + 1);
      var r := Standing(records, next, start, walked + 1);
      assert Reaches(records, a, r) by {
        var m: nat :| Leads(records, next, r, m);
        assert Leads(records, a, r, m + 1);
      }
      r
  }

  // ---- Atomic commands ----

  /** A record has an edge exactly when it is superseded, the edge leads to a record, and no chain of
      edges closes. */
  ghost predicate GraphSound(records: map<Id, Record>)
  {
    && (forall id: Id :: id in records ==> (records[id].supersededBy.Some? <==> records[id].status.Superseded?))
    && (forall id: Id :: id in records && records[id].supersededBy.Some? ==> records[id].supersededBy.value in records)
    && Acyclic(records)
  }

  datatype Command =
    | Create(tt: Time, key: string, hash: Hash, resources: set<Id>, create: CreateInput)
    | Change(tt: Time, record: Id, key: string, hash: Hash, change: StatusInput)

  function Exec(l: Library, c: Command): Result<Effect, Error>
  {
    match c
    case Create(tt, key, hash, resources, create) => CreateEffect(l, tt, key, hash, resources, create)
    case Change(tt, record, key, hash, change) => StatusEffect(l, tt, record, key, hash, change)
  }

  function Next(l: Library, c: Command): Library
  {
    match Exec(l, c)
    case Ok(effect) => effect.library
    case Err(_) => l
  }

  function After(commands: seq<Command>): Library
  {
    if commands == [] then Library(map[], map[], [], 0)
    else Next(After(commands[..|commands| - 1]), commands[|commands| - 1])
  }

  lemma SameTargetsStayAcyclic(before: map<Id, Record>, after: map<Id, Record>)
    requires Acyclic(before) && forall id: Id :: Target(after, id) == Target(before, id)
    ensures Acyclic(after)
  {
    forall a: Id, n: nat | n > 0 ensures !Leads(after, a, a, n) {
      if Leads(after, a, a, n) {
        SameWalk(after, before, a, a, n);
      }
    }
  }

  lemma {:induction false} SameWalk(r: map<Id, Record>, s: map<Id, Record>, a: Id, b: Id, n: nat)
    requires Leads(r, a, b, n) && forall id: Id :: Target(r, id) == Target(s, id)
    ensures Leads(s, a, b, n)
    decreases n
  {
    if n > 0 {
      SameWalk(r, s, Target(r, a).value, b, n - 1);
    }
  }

  /** A record without an edge leads only to itself. */
  lemma StandingLeadsNowhere(records: map<Id, Record>, a: Id, b: Id)
    requires Target(records, a).None? && Reaches(records, a, b)
    ensures a == b
  {
  }

  ghost predicate LibrarySound(l: Library)
  {
    && GraphSound(l.records)
    && (forall id: Id :: id in l.records ==> id < l.nextId)
    && (forall k :: k in l.commands ==> l.commands[k].body.Some?)
  }

  /** A step without an edge: a new record, or a status change that supersedes nothing. */
  lemma EdgelessRow(l: Library, id: Id, row: Record, key: CommandKey, hash: Hash)
    requires LibrarySound(l) && Target(l.records, id).None? && row.supersededBy.None? && !row.status.Superseded?
    ensures LibrarySound(Commit(l, id, row, key, hash))
  {
    hide Acyclic;
    SameTargetsStayAcyclic(l.records, l.records[id := row]);
  }

  /** A step with an edge to an accepted record: nothing leads on from there, so no circle closes. */
  lemma SupersededRow(l: Library, id: Id, row: Record, key: CommandKey, hash: Hash)
    requires LibrarySound(l) && id in l.records && Target(l.records, id).None?
    requires row.status.Superseded? && row.supersededBy.Some? && row.supersededBy.value != id
    requires row.supersededBy.value in l.records && l.records[row.supersededBy.value].status.Accepted?
    ensures LibrarySound(Commit(l, id, row, key, hash))
  {
    hide Acyclic, Reaches;
    var target := row.supersededBy.value;
    EdgeKeepsAcyclic(l.records, l.records[id := row], id, target);
    if Reaches(l.records, target, id) {
      StandingLeadsNowhere(l.records, target, id);
      assert false;
    }
  }

  lemma StepKeepsLibrary(l: Library, c: Command)
    requires LibrarySound(l)
    ensures LibrarySound(Next(l, c))
  {
    hide Acyclic, Commit, NormalEvidence, ValidityHolds;
    if Exec(l, c).Ok? && !Exec(l, c).value.replayed {
      match c
      case Create(tt, key, hash, resources, create) =>
        EdgelessRow(l, l.nextId, NewRow(tt, create), CommandKey(CreateRecord, key), hash);
      case Change(tt, record, key, hash, change) =>
        var row := ChangedRow(l.records[record], tt, change);
        if change.status.Superseded? {
          SupersededRow(l, record, row, CommandKey(ChangeStatus, key), hash);
        } else {
          EdgelessRow(l, record, row, CommandKey(ChangeStatus, key), hash);
        }
    }
  }

  /** With each command atomic, supersession never runs in a circle: in every reachable state the edges
      are acyclic, and a record has one exactly when it is superseded. */
  lemma {:induction false} SupersessionNeverCycles(commands: seq<Command>)
    ensures LibrarySound(After(commands))
  {
    hide Next;
    if commands == [] {
      assert forall a: Id, n: nat :: n > 0 ==> !Leads(map[], a, a, n);
    } else {
      SupersessionNeverCycles(commands[..|commands| - 1]);
      StepKeepsLibrary(After(commands[..|commands| - 1]), commands[|commands| - 1]);
    }
  }

  /** Hence following the edges from any record ends, at a record that is not superseded. */
  lemma FollowingEdgesEnds(commands: seq<Command>, id: Id)
    requires id in After(commands).records
    ensures exists r: Id ::
      && r in After(commands).records
      && !After(commands).records[r].status.Superseded?
      && Reaches(After(commands).records, id, r)
  {
    hide After, Reaches, Acyclic;
    SupersessionNeverCycles(commands);
    var records := After(commands).records;
    var r := Standing(records, id, id, 0);
    WalksStayInside(records, id, r);
  }

  lemma WalksStayInside(records: map<Id, Record>, a: Id, b: Id)
    requires GraphSound(records) && a in records && Reaches(records, a, b)
    ensures b in records
  {
    var n: nat :| Leads(records, a, b, n);
    WalkStaysInside(records, a, b, n);
  }

  lemma {:induction false} WalkStaysInside(records: map<Id, Record>, a: Id, b: Id, n: nat)
    requires GraphSound(records) && a in records && Leads(records, a, b, n)
    ensures b in records
    decreases n
  {
    hide Acyclic;
    if n > 0 {
      WalkStaysInside(records, Target(records, a).value, b, n - 1);
    }
  }

  // ---- Exactly once ----

  lemma StepKeepsRecord(l: Library, c: Command, k: CommandKey)
    requires k in l.commands
    ensures k in Next(l, c).commands && Next(l, c).commands[k] == l.commands[k]
  {
  }

  function KeyOf(c: Command): CommandKey
  {
    match c
    case Create(_, key, _, _, _) => CommandKey(CreateRecord, key)
    case Change(_, _, key, _, _) => CommandKey(ChangeStatus, key)
  }

  lemma {:induction false} RecordsStay(commands: seq<Command>, m: nat, n: nat, k: CommandKey)
    requires m <= n <= |commands| && k in After(commands[..m]).commands
    ensures k in After(commands[..n]).commands && After(commands[..n]).commands[k] == After(commands[..m]).commands[k]
  {
    hide Next;
    if m < n {
      RecordsStay(commands, m, n - 1, k);
      assert commands[..n][..n - 1] == commands[..n - 1];
      StepKeepsRecord(After(commands[..n - 1]), commands[n - 1], k);
    }
  }

  /** A command that succeeds again under the same key returns the first stored record and writes nothing. */
  lemma ExactlyOnce(commands: seq<Command>, i: nat, j: nat)
    requires i < j < |commands| && KeyOf(commands[i]) == KeyOf(commands[j])
    requires Exec(After(commands[..i]), commands[i]).Ok? && Exec(After(commands[..j]), commands[j]).Ok?
    ensures commands[i].hash == commands[j].hash
    ensures var again := Exec(After(commands[..j]), commands[j]).value;
      && again.replayed
      && again.record == Exec(After(commands[..i]), commands[i]).value.record
      && again.library == After(commands[..j])
  {
    hide After;
    assert commands[..i + 1][..i] == commands[..i];
    AfterSnoc(commands, i);
    RecordsStay(commands, i + 1, j, KeyOf(commands[i]));
  }

  lemma AfterSnoc(commands: seq<Command>, i: nat)
    requires i < |commands|
    ensures After(commands[..i + 1]) == Next(After(commands[..i]), commands[i])
  {
    hide Next;
    assert commands[..i + 1][..i] == commands[..i];
  }
}
