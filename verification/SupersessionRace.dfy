/** Status changes as they really interleave: a transaction locks its own record and reads the
    superseding one without a lock, and writes later. Only the foreign key makes the write wait for
    a transaction that holds the target's row. */
module SupersessionRace {
  import opened Wrappers
  import opened Knowledge
  import opened Supersession

  /** A status change that has made its reads and holds the lock on its record. */
  datatype Pending = Pending(record: Id, row: Record)

  datatype World = World(records: map<Id, Record>, pending: map<nat, Pending>)

  datatype RaceStep =
    | Propose(id: Id, title: string, tt: Time)
    | Begin(tx: nat, tt: Time, record: Id, change: StatusInput)
    | Write(tx: nat)

  /** The command against the records as they are at its reads, its key being fresh. */
  function Checked(records: map<Id, Record>, tt: Time, record: Id, change: StatusInput): Result<Effect, Error>
  {
    StatusEffect(Library(records, map[], [], 0), tt, record, "", 0, change)
  }

  predicate Locked(w: World, id: Id)
  {
    exists tx :: tx in w.pending && w.pending[tx].record == id
  }

  predicate LockedByOther(w: World, tx: nat, id: Id)
  {
    exists other :: other in w.pending && other != tx && w.pending[other].record == id
  }

  ghost predicate Possible(w: World, step: RaceStep)
  {
    match step
    case Propose(id, _, _) => id !in w.records
    case Begin(tx, tt, record, change) => tx !in w.pending && !Locked(w, record) && Checked(w.records, tt, record, change).Ok?
    case Write(tx) =>
      tx in w.pending && (w.pending[tx].row.supersededBy.Some? ==> !LockedByOther(w, tx, w.pending[tx].row.supersededBy.value))
  }

  function Take(w: World, step: RaceStep): World
    requires Possible(w, step)
  {
    match step
    case Propose(id, title, tt) => w.(records := w.records[id := Record(title, Proposed, tt, None, None, [], 1)])
    case Begin(tx, tt, record, change) =>
      w.(pending := w.pending[tx := Pending(record, Checked(w.records, tt, record, change).value.record)])
    case Write(tx) => World(w.records[w.pending[tx].record := w.pending[tx].row], w.pending - {tx})
  }

  /** Locked records are not superseded, locks are exclusive, every pending edge leads to another
      record, and no record points back along a pending or a written edge. */
  ghost predicate RaceSound(w: World)
  {
    && (forall tx :: tx in w.pending ==> PendingSound(w, w.pending[tx]))
    && (forall tx, other :: tx in w.pending && other in w.pending && w.pending[tx].record == w.pending[other].record ==> tx == other)
    && NothingMutual(w.records)
  }

  ghost predicate PendingSound(w: World, p: Pending)
  {
    && p.record in w.records
    && Target(w.records, p.record).None?
    && (p.row.supersededBy.Some? <==> p.row.status.Superseded?)
    && (p.row.supersededBy.Some? ==>
          && p.row.supersededBy.value != p.record
          && p.row.supersededBy.value in w.records
          && Target(w.records, p.row.supersededBy.value) != Some(p.record))
  }

  /** No record supersedes itself, and no two supersede each other. */
  ghost predicate NothingMutual(records: map<Id, Record>)
  {
    && (forall a: Id :: a in records && records[a].supersededBy.Some? ==> records[a].supersededBy.value in records)
    && (forall a: Id :: a in records && records[a].supersededBy.Some? ==> records[a].supersededBy.value != a && Target(records, records[a].supersededBy.value) != Some(a))
    && (forall a: Id :: a in records ==> (records[a].supersededBy.Some? <==> records[a].status.Superseded?))
  }

  lemma CheckedRow(records: map<Id, Record>, tt: Time, record: Id, change: StatusInput)
    requires Checked(records, tt, record, change).Ok?
    ensures record in records && !records[record].status.Superseded?
    ensures var row := Checked(records, tt, record, change).value.record;
      && (row.supersededBy.Some? <==> row.status.Superseded?)
      && (row.supersededBy.Some? ==>
            && row.supersededBy.value != record
            && row.supersededBy.value in records
            && records[row.supersededBy.value].status.Accepted?)
  {
  }

  lemma StepKeepsRaceSound(w: World, step: RaceStep)
    requires RaceSound(w) && Possible(w, step)
    ensures RaceSound(Take(w, step))
  {
    hide Checked;
    match step
    case Propose(id, title, tt) =>
    case Begin(tx, tt, record, change) => CheckedRow(w.records, tt, record, change);
    case Write(tx) => WriteKeepsRaceSound(w, tx);
  }

  lemma WriteKeepsRaceSound(w: World, tx: nat)
    requires RaceSound(w) && Possible(w, Write(tx))
    ensures RaceSound(Take(w, Write(tx)))
  {
    hide Checked;
    var p, r := w.pending[tx], Take(w, Write(tx));
    forall other | other in r.pending ensures PendingSound(r, r.pending[other]) {
      assert w.pending[other].record != p.record;
    }
    assert NothingMutual(r.records);
  }

  ghost predicate Interleaving(w: World, steps: seq<RaceStep>)
    decreases |steps|
  {
    steps == [] || (Possible(w, steps[0]) && Interleaving(Take(w, steps[0]), steps[1..]))
  }

  function TakeAll(w: World, steps: seq<RaceStep>): World
    requires Interleaving(w, steps)
    decreases |steps|
  {
    if steps == [] then w else TakeAll(Take(w, steps[0]), steps[1..])
  }

  lemma {:induction false} InterleavingKeepsRaceSound(w: World, steps: seq<RaceStep>)
    requires RaceSound(w) && Interleaving(w, steps)
    ensures RaceSound(TakeAll(w, steps))
    decreases |steps|
  {
    hide Take, Possible, RaceSound;
    if steps != [] {
      StepKeepsRaceSound(w, steps[0]);
      InterleavingKeepsRaceSound(Take(w, steps[0]), steps[1..]);
    }
  }

  /** However status changes interleave, no record supersedes itself and no two records supersede each
      other: the foreign key's wait is enough for that. */
  lemma NeverMutual(steps: seq<RaceStep>)
    requires Interleaving(World(map[], map[]), steps)
    ensures NothingMutual(TakeAll(World(map[], map[]), steps).records)
  {
    hide Interleaving, TakeAll;
    InterleavingKeepsRaceSound(World(map[], map[]), steps);
  }

  /** Longer circles are another matter. A write keeps the graph acyclic if and only if its record cannot
      be reached, at that moment, from the record that is to supersede it. */
  lemma WriteKeepsAcyclic(w: World, tx: nat)
    requires RaceSound(w) && Possible(w, Write(tx)) && Acyclic(w.records)
    ensures Acyclic(Take(w, Write(tx)).records) <==>
      (w.pending[tx].row.supersededBy.Some? ==> !Reaches(w.records, w.pending[tx].row.supersededBy.value, w.pending[tx].record))
  {
    hide Acyclic, Reaches;
    var p := w.pending[tx];
    if p.row.supersededBy.Some? {
      EdgeKeepsAcyclic(w.records, Take(w, Write(tx)).records, p.record, p.row.supersededBy.value);
    } else {
      SameTargetsStayAcyclic(w.records, Take(w, Write(tx)).records);
    }
  }

  /** A write is safe when its record cannot be reached from the one that is to supersede it. */
  ghost predicate WriteSafe(w: World, step: RaceStep)
    requires Possible(w, step)
  {
    step.Write? && w.pending[step.tx].row.supersededBy.Some? ==>
      !Reaches(w.records, w.pending[step.tx].row.supersededBy.value, w.pending[step.tx].record)
  }

  ghost predicate WritesSafely(w: World, steps: seq<RaceStep>)
    requires Interleaving(w, steps)
    decreases |steps|
  {
    steps == [] || (WriteSafe(w, steps[0]) && WritesSafely(Take(w, steps[0]), steps[1..]))
  }

  lemma StepKeepsAcyclic(w: World, step: RaceStep)
    requires RaceSound(w) && Possible(w, step) && Acyclic(w.records)
    ensures Acyclic(Take(w, step).records) <==> WriteSafe(w, step)
  {
    hide Acyclic, Reaches, Checked;
    match step
    case Propose(id, title, tt) => SameTargetsStayAcyclic(w.records, Take(w, step).records);
    case Begin(tx, tt, record, change) =>
    case Write(tx) => WriteKeepsAcyclic(w, tx);
  }

  /** Edges are never removed, so a circle never opens again. */
  lemma CircleStays(w: World, step: RaceStep)
    requires RaceSound(w) && Possible(w, step) && !Acyclic(w.records)
    ensures !Acyclic(Take(w, step).records)
  {
    hide Checked;
    var a: Id, n: nat :| n > 0 && Leads(w.records, a, a, n);
    EdgesStay(w, step);
    WalkStays(w.records, Take(w, step).records, a, a, n);
  }

  lemma EdgesStay(w: World, step: RaceStep)
    requires RaceSound(w) && Possible(w, step)
    ensures forall id: Id :: Target(w.records, id).Some? ==> Target(Take(w, step).records, id) == Target(w.records, id)
  {
    hide Checked;
  }

  lemma {:induction false} WalkStays(r: map<Id, Record>, s: map<Id, Record>, a: Id, b: Id, n: nat)
    requires Leads(r, a, b, n) && forall id: Id :: Target(r, id).Some? ==> Target(s, id) == Target(r, id)
    ensures Leads(s, a, b, n)
    decreases n
  {
    if n > 0 {
      WalkStays(r, s, Target(r, a).value, b, n - 1);
    }
  }

  lemma {:induction false} CircleStaysToTheEnd(w: World, steps: seq<RaceStep>)
    requires RaceSound(w) && Interleaving(w, steps) && !Acyclic(w.records)
    ensures !Acyclic(TakeAll(w, steps).records)
    decreases |steps|
  {
    hide Take, Possible, RaceSound, Acyclic;
    if steps != [] {
      CircleStays(w, steps[0]);
      StepKeepsRaceSound(w, steps[0]);
      CircleStaysToTheEnd(Take(w, steps[0]), steps[1..]);
    }
  }

  /** Over every interleaving: no circle is ever closed if and only if every write is safe at its moment. */
  lemma {:induction false} AcyclicOverInterleavings(w: World, steps: seq<RaceStep>)
    requires RaceSound(w) && Interleaving(w, steps) && Acyclic(w.records)
    ensures Acyclic(TakeAll(w, steps).records) <==> WritesSafely(w, steps)
    decreases |steps|
  {
    hide Take, Possible, RaceSound, Acyclic, WriteSafe;
    if steps != [] {
      StepKeepsAcyclic(w, steps[0]);
      StepKeepsRaceSound(w, steps[0]);
      if WriteSafe(w, steps[0]) {
        AcyclicOverInterleavings(Take(w, steps[0]), steps[1..]);
      } else {
        CircleStaysToTheEnd(Take(w, steps[0]), steps[1..]);
      }
    }
  }

  // ---- Three transactions close a circle ----

  function Plain(status: Status, supersededBy: Option<Id>, version: nat): Record
  {
    Record("", status, 0, if Ends(status) then Some(0) else None, supersededBy, [], version)
  }

  function SupersedeBy(heir: Id): StatusInput
  {
    StatusInput(Superseded, Some(heir), 2)
  }

  function Fresh(): Record
  {
    Plain(Accepted, None, 2)
  }

  function Replaced(heir: Id): Record
  {
    Plain(Superseded, Some(heir), 3)
  }

  /** Three accepted records. */
  function ThreeAccepted(): World
  {
    World(map[1 := Fresh(), 2 := Fresh(), 3 := Fresh()], map[])
  }

  /** Each transaction reads an accepted record, and each write finds its target unlocked. */
  function CircleRun(): seq<RaceStep>
  {
    [ Begin(11, 0, 1, SupersedeBy(2)), Begin(12, 0, 2, SupersedeBy(3)), Write(12),
      Begin(13, 0, 3, SupersedeBy(1)), Write(11), Write(13) ]
  }

  lemma BeginSucceeds(w: World, tx: nat, record: Id, heir: Id)
    requires tx !in w.pending && !Locked(w, record) && record in w.records && heir in w.records && record != heir
    requires w.records[record] == Fresh() && w.records[heir] == Fresh()
    ensures Possible(w, Begin(tx, 0, record, SupersedeBy(heir)))
    ensures Take(w, Begin(tx, 0, record, SupersedeBy(heir))) == w.(pending := w.pending[tx := Pending(record, Replaced(heir))])
  {
  }

  lemma WriteSucceeds(w: World, tx: nat, record: Id, heir: Id)
    requires tx in w.pending && w.pending[tx] == Pending(record, Replaced(heir)) && !LockedByOther(w, tx, heir)
    ensures Possible(w, Write(tx))
    ensures Take(w, Write(tx)) == World(w.records[record := Replaced(heir)], w.pending - {tx})
  {
  }

  lemma OneStep(w: World, steps: seq<RaceStep>, k: nat, r: World)
    requires k < |steps| && Possible(w, steps[k]) && Take(w, steps[k]) == r && Interleaving(r, steps[k + 1..])
    ensures Interleaving(w, steps[k..]) && TakeAll(w, steps[k..]) == TakeAll(r, steps[k + 1..])
  {
    hide Possible, Take;
    assert steps[k..][0] == steps[k] && steps[k..][1..] == steps[k + 1..];
  }

  lemma SecondHalf(w3: World)
    requires w3 == World(map[1 := Fresh(), 2 := Replaced(3), 3 := Fresh()], map[11 := Pending(1, Replaced(2))])
    ensures Interleaving(w3, CircleRun()[3..])
    ensures TakeAll(w3, CircleRun()[3..]).records == map[1 := Replaced(2), 2 := Replaced(3), 3 := Replaced(1)]
  {
    hide Plain, Fresh, Replaced, Possible, Take;
    var steps := CircleRun();
    var w4 := w3.(pending := map[11 := Pending(1, Replaced(2)), 13 := Pending(3, Replaced(1))]);
    var w5 := World(map[1 := Replaced(2), 2 := Replaced(3), 3 := Fresh()], map[13 := Pending(3, Replaced(1))]);
    var w6 := World(map[1 := Replaced(2), 2 := Replaced(3), 3 := Replaced(1)], map[]);
    BeginSucceeds(w3, 13, 3, 1);
    WriteSucceeds(w4, 11, 1, 2);
    WriteSucceeds(w5, 13, 3, 1);
    OneStep(w5, steps, 5, w6);
    OneStep(w4, steps, 4, w5);
    OneStep(w3, steps, 3, w4);
  }

  /** The records after each step of the run, and who is still at work. */
  lemma CircleCloses()
    ensures Interleaving(ThreeAccepted(), CircleRun())
    ensures TakeAll(ThreeAccepted(), CircleRun()).records == map[1 := Replaced(2), 2 := Replaced(3), 3 := Replaced(1)]
  {
    hide Plain, Fresh, Replaced, Possible, Take;
    var steps, w0 := CircleRun(), ThreeAccepted();
    var w3 := World(map[1 := Fresh(), 2 := Replaced(3), 3 := Fresh()], map[11 := Pending(1, Replaced(2))]);
    SecondHalf(w3);
    var w1 := w0.(pending := map[11 := Pending(1, Replaced(2))]);
    var w2 := w0.(pending := map[11 := Pending(1, Replaced(2)), 12 := Pending(2, Replaced(3))]);
    BeginSucceeds(w0, 11, 1, 2);
    BeginSucceeds(w1, 12, 2, 3);
    WriteSucceeds(w2, 12, 2, 3);
    OneStep(w2, steps, 2, w3);
    OneStep(w1, steps, 1, w2);
    OneStep(w0, steps, 0, w1);
    assert steps[0..] == steps;
  }

  // ---- From an empty library ----

  lemma {:induction false} InterleavingConcat(w: World, a: seq<RaceStep>, b: seq<RaceStep>)
    requires Interleaving(w, a) && Interleaving(TakeAll(w, a), b)
    ensures Interleaving(w, a + b) && TakeAll(w, a + b) == TakeAll(TakeAll(w, a), b)
    decreases |a|
  {
    hide Possible, Take;
    if a == [] {
      assert a + b == b;
    } else {
      assert (a + b)[0] == a[0] && (a + b)[1..] == a[1..] + b;
      InterleavingConcat(Take(w, a[0]), a[1..], b);
    }
  }

  /** A record is proposed and accepted. */
  function Admit(id: Id): seq<RaceStep>
  {
    [Propose(id, "", 0), Begin(id, 0, id, StatusInput(Accepted, None, 1)), Write(id)]
  }

  lemma Admitted(records: map<Id, Record>, id: Id)
    requires id !in records
    ensures Interleaving(World(records, map[]), Admit(id))
    ensures TakeAll(World(records, map[]), Admit(id)) == World(records[id := Fresh()], map[])
  {
    var steps := Admit(id);
    var w0 := World(records, map[]);
    var w1 := World(records[id := Plain(Proposed, None, 1)], map[]);
    var w2 := World(w1.records, map[id := Pending(id, Fresh())]);
    var w3 := World(records[id := Fresh()], map[]);
    assert Take(w0, steps[0]) == w1;
    assert Possible(w1, steps[1]) && Take(w1, steps[1]) == w2;
    assert Possible(w2, steps[2]) && Take(w2, steps[2]) == w3 by {
      assert w2.records[id := Fresh()] == w3.records && w2.pending - {id} == map[];
    }
    hide Possible, Take, Plain, Fresh;
    OneStep(w2, steps, 2, w3);
    OneStep(w1, steps, 1, w2);
    OneStep(w0, steps, 0, w1);
    assert steps[0..] == steps;
  }

  /** Three records admitted, then the circle. */
  function FullRun(): seq<RaceStep>
  {
    Admit(1) + (Admit(2) + (Admit(3) + CircleRun()))
  }

  lemma FullRunCloses()
    ensures Interleaving(World(map[], map[]), FullRun())
    ensures TakeAll(World(map[], map[]), FullRun()).records == map[1 := Replaced(2), 2 := Replaced(3), 3 := Replaced(1)]
  {
    hide Interleaving, TakeAll, Admit, Fresh, Replaced, CircleRun;
    var one := map[1 := Fresh()];
    var two := map[1 := Fresh(), 2 := Fresh()];
    Admitted(map[], 1);
    assert map[][1 := Fresh()] == one;
    Admitted(one, 2);
    assert one[2 := Fresh()] == two;
    Admitted(two, 3);
    assert World(two[3 := Fresh()], map[]) == ThreeAccepted();
    CircleCloses();
    InterleavingConcat(World(two, map[]), Admit(3), CircleRun());
    InterleavingConcat(World(one, map[]), Admit(2), Admit(3) + CircleRun());
    InterleavingConcat(World(map[], map[]), Admit(1), Admit(2) + (Admit(3) + CircleRun()));
  }

  /** So atomicity matters: with the target read without a lock, three status changes can leave three
      records that supersede one another in a circle. */
  lemma ThreeCanCloseACircle()
    ensures Interleaving(World(map[], map[]), FullRun())
    ensures !Acyclic(TakeAll(World(map[], map[]), FullRun()).records)
  {
    hide Interleaving, TakeAll, Possible, Take, FullRun;
    FullRunCloses();
    var records := TakeAll(World(map[], map[]), FullRun()).records;
    assert Leads(records, 1, 1, 0);
    assert Leads(records, 3, 1, 1);
    assert Leads(records, 2, 1, 2);
    assert Leads(records, 1, 1, 3);
  }
}
