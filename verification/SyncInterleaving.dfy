/** A manual sync is three separate steps: look the key up, fetch from the provider, apply. Any number
    of callers may run them interleaved, with one another and with every other command. */
module SyncInterleaving {
  import opened Wrappers
  import opened Tables
  import opened Commands
  import opened Server
  import opened Frames
  import opened Idempotency
  import opened Guarantees
  import opened RepositorySync

  /** Where one caller is. Its repository and digest are fixed when it arrives. */
  datatype Phase =
    | Arrived
    | Missed
    | Fetched(snapshot: Snapshot)
    | Answered(response: Response, replayed: bool)
    | Refused(error: Error)

  datatype Caller = Caller(repository: Id, hash: Hash, phase: Phase)

  /** The shared tables, the callers that use one key, and the snapshots applied under that key so far. */
  datatype System = System(tables: Tables, callers: map<nat, Caller>, applied: seq<Snapshot>)

  datatype SyncStep =
    | Arrive(caller: nat, repository: Id, hash: Hash)
    | Look(caller: nat)
    | Fetch(caller: nat, snapshot: Snapshot)
    | FetchFails(caller: nat, fullName: string, errorCode: string, tt: Time)
    | ApplyFetched(caller: nat, tt: Time)
    | Elsewhere(command: Command, tt: Time)

  function SyncKeyOf(key: string): CommandKey
  {
    CommandKey(CommandType.RepositorySync, key)
  }

  function ApplyOf(caller: Caller, key: string): Command
    requires caller.phase.Fetched?
  {
    ApplySnapshot(caller.repository, Manual(key, caller.hash), caller.phase.snapshot)
  }

  /** A step is possible when its caller has reached the phase it starts from; other commands work
      under other keys. */
  ghost predicate Possible(s: System, key: string, step: SyncStep)
  {
    match step
    case Arrive(caller, _, _) => caller !in s.callers
    case Look(caller) => caller in s.callers && s.callers[caller].phase.Arrived?
    case Fetch(caller, _) => caller in s.callers && s.callers[caller].phase.Missed?
    case FetchFails(caller, _, _, _) => caller in s.callers && s.callers[caller].phase.Missed?
    case ApplyFetched(caller, _) => caller in s.callers && s.callers[caller].phase.Fetched?
    case Elsewhere(command, _) => KeyOf(command) != Some(SyncKeyOf(key))
  }

  function Advance(s: System, caller: nat, phase: Phase): map<nat, Caller>
    requires caller in s.callers
  {
    s.callers[caller := s.callers[caller].(phase := phase)]
  }

  function Looked(r: Result<Option<Response>, Error>): Phase
  {
    if r.Err? then Refused(r.error) else if r.value.None? then Missed else Answered(r.value.value, true)
  }

  function Settle(r: Result<Effect, Error>): Phase
  {
    if r.Err? then Refused(r.error) else Answered(r.value.response, r.value.replayed)
  }

  function Take(s: System, key: string, step: SyncStep): System
    requires Possible(s, key, step)
  {
    match step
    case Arrive(caller, repository, hash) => s.(callers := s.callers[caller := Caller(repository, hash, Arrived)])
    case Look(caller) => s.(callers := Advance(s, caller, Looked(Lookup(s.tables, SyncKeyOf(key), s.callers[caller].hash))))
    case Fetch(caller, snapshot) => s.(callers := Advance(s, caller, Fetched(snapshot)))
    case FetchFails(caller, fullName, errorCode, tt) =>
      s.(tables := Next(s.tables, tt, RecordFailure(s.callers[caller].repository, fullName, errorCode)),
         callers := Advance(s, caller, Refused(ProviderNotFound)))
    case ApplyFetched(caller, tt) =>
      var r := Exec(s.tables, tt, ApplyOf(s.callers[caller], key));
      System(if r.Ok? then r.value.tables else s.tables,
             Advance(s, caller, Settle(r)),
             if r.Ok? && !r.value.replayed then s.applied + [s.callers[caller].phase.snapshot] else s.applied)
    case Elsewhere(command, tt) => s.(tables := Next(s.tables, tt, command))
  }

  /** An answer that reports this snapshot. */
  predicate Reports(response: Response, snapshot: Snapshot)
  {
    && response.Synchronised?
    && response.state.status.Synced?
    && response.state.revision == Some(snapshot.revision)
    && response.state.branch == snapshot.branch
    && response.state.fullName == snapshot.fullName
    && response.state.provider == snapshot.provider
    && response.state.visibility == snapshot.visibility
  }

  /** Before the first application no caller has an answer; after it there is one application, and
      every answer is the stored one. */
  ghost predicate Coherent(s: System, key: string)
  {
    if SyncKeyOf(key) !in s.tables.commands then
      s.applied == [] && forall c :: c in s.callers ==> !s.callers[c].phase.Answered?
    else
      && |s.applied| == 1
      && s.tables.commands[SyncKeyOf(key)].body.Some?
      && Reports(s.tables.commands[SyncKeyOf(key)].body.value, s.applied[0])
      && forall c :: c in s.callers && s.callers[c].phase.Answered? ==>
           s.tables.commands[SyncKeyOf(key)].body == Some(s.callers[c].phase.response)
  }

  /** Whatever happens under other keys, the record of this key does not appear, change or go. */
  lemma OtherKeysLeaveRecord(t: Tables, tt: Time, c: Command, k: CommandKey)
    requires KeyOf(c) != Some(k)
    ensures k in Next(t, tt, c).commands <==> k in t.commands
    ensures k in t.commands ==> Next(t, tt, c).commands[k] == t.commands[k]
  {
    hide Exec, Fresh;
    if Exec(t, tt, c).Ok? {
      Outcomes(t, tt, c);
      if !Exec(t, tt, c).value.replayed {
        FirstSuccess(t, tt, c, Exec(t, tt, c).value);
      }
    }
  }

  lemma StepKeepsCoherence(s: System, key: string, step: SyncStep)
    requires Coherent(s, key) && Possible(s, key, step)
    ensures Coherent(Take(s, key, step), key)
  {
    hide Exec, Next;
    match step
    case Elsewhere(command, tt) => OtherKeysLeaveRecord(s.tables, tt, command, SyncKeyOf(key));
    case FetchFails(caller, fullName, errorCode, tt) =>
      OtherKeysLeaveRecord(s.tables, tt, RecordFailure(s.callers[caller].repository, fullName, errorCode), SyncKeyOf(key));
    case ApplyFetched(caller, tt) => ApplyKeepsCoherence(s, key, caller, tt);
    case _ =>
  }

  /** Applying is the step that decides: the first one to get here writes, every later one repeats. */
  lemma ApplyKeepsCoherence(s: System, key: string, caller: nat, tt: Time)
    requires Coherent(s, key) && caller in s.callers && s.callers[caller].phase.Fetched?
    ensures Coherent(Take(s, key, ApplyFetched(caller, tt)), key)
  {
    var c := ApplyOf(s.callers[caller], key);
    if Exec(s.tables, tt, c).Ok? {
      SuccessIsRecorded(s.tables, tt, c);
      if SyncKeyOf(key) in s.tables.commands {
        RetryRepeats(s.tables, tt, c);
      } else {
        FirstIsFresh(s.tables, tt, c);
      }
    }
    hide Exec;
  }

  lemma FirstIsFresh(t: Tables, tt: Time, c: Command)
    requires Exec(t, tt, c).Ok? && c.ApplySnapshot? && KeyOf(c).Some? && KeyOf(c).value !in t.commands
    ensures !Exec(t, tt, c).value.replayed && Reports(Exec(t, tt, c).value.response, c.snapshot)
  {
    Outcomes(t, tt, c);
    hide Exec, Stored, SnapshotChanges;
  }

  // ---- Every interleaving ----

  ghost predicate Interleaving(s: System, key: string, steps: seq<SyncStep>)
    decreases |steps|
  {
    steps == [] || (Possible(s, key, steps[0]) && Interleaving(Take(s, key, steps[0]), key, steps[1..]))
  }

  function TakeAll(s: System, key: string, steps: seq<SyncStep>): System
    requires Interleaving(s, key, steps)
    decreases |steps|
  {
    if steps == [] then s else TakeAll(Take(s, key, steps[0]), key, steps[1..])
  }

  lemma {:induction false} InterleavingKeepsCoherence(s: System, key: string, steps: seq<SyncStep>)
    requires Coherent(s, key) && Interleaving(s, key, steps)
    ensures Coherent(TakeAll(s, key, steps), key)
    decreases |steps|
  {
    hide Take, Possible, Coherent;
    if steps != [] {
      StepKeepsCoherence(s, key, steps[0]);
      InterleavingKeepsCoherence(Take(s, key, steps[0]), key, steps[1..]);
    }
  }

  /** Any interleaving of syncs under one fresh key applies at most one snapshot; it applies exactly
      one as soon as any caller succeeds, and all successful callers get that one stored result,
      those that had missed at the first look-up included. */
  lemma OneSnapshotPerKey(t: Tables, key: string, steps: seq<SyncStep>, a: nat, b: nat)
    requires SyncKeyOf(key) !in t.commands
    requires Interleaving(System(t, map[], []), key, steps)
    ensures var s := TakeAll(System(t, map[], []), key, steps);
      && |s.applied| <= 1
      && (a in s.callers && s.callers[a].phase.Answered? ==>
            && |s.applied| == 1
            && SyncKeyOf(key) in s.tables.commands
            && Reports(s.callers[a].phase.response, s.applied[0])
            && s.tables.commands[SyncKeyOf(key)].body == Some(s.callers[a].phase.response))
      && (a in s.callers && b in s.callers && s.callers[a].phase.Answered? && s.callers[b].phase.Answered? ==>
            s.callers[a].phase.response == s.callers[b].phase.response)
  {
    hide Take, Possible, TakeAll, Interleaving;
    InterleavingKeepsCoherence(System(t, map[], []), key, steps);
  }
}
