/** Why exclusion needs timely heartbeats: a run in which a late heartbeat brings a lapsed lease back
    beside the one that took its place. */
module LateHeartbeat {
  import opened Wrappers
  import opened Tables
  import opened Commands
  import opened Server
  import opened Exclusion
  import opened Frames
  import opened Runs
  import Scopes
  import Coordination
  import AgentSessions
  import Projects
  import Text

  const ROOT := Projects.RootInput("main", "origin", "main")

  const WHOLE := Scopes.Scope(Scopes.RepositoryKind, ".", Scopes.Exclusive)

  /** Reserve the whole repository exclusively, without override. */
  function Reservation(session: Id, key: string): Command
  {
    StartWork(7, false, key, 0, Coordination.StartRequest(session, "", "", [Scopes.Render(WHOLE)], false))
  }

  /** One session reserves the repository and falls silent; a second one waits until the lease has
      lapsed and reserves it too; then the first one's heartbeat arrives. */
  function LateRun(): seq<Step>
  {
    [ Step(StartSession(7, "a", "n", false), 0, 0),
      Step(Reservation(2, "first"), 0, 0),
      Step(StartSession(7, "b", "n", false), 30, 30),
      Step(Reservation(6, "second"), 61, 61),
      Step(Heartbeat(7, false, 2), 62, 62) ]
  }

  lemma WholeRepositoryNormalises()
    ensures Scopes.NormalizeScopes([Scopes.Render(WHOLE)]) == Ok([WHOLE])
  {
    Scopes.NamesAreFixedPoints(WHOLE);
    hide Text.ToLower, Text.TrimSpace, Scopes.ParseKind, Scopes.ParseMode;
    var scopes := [Scopes.Render(WHOLE)];
    assert Text.Utf8Length(".") <= Scopes.MAX_LOCATOR;
    assert Scopes.NormalizeOne(scopes[0]) == Ok(WHOLE);
    TraverseSnoc(Scopes.NormalizeOne, [], scopes[0]);
    assert [] + [scopes[0]] == scopes;
    DistinctOfDistinct([WHOLE]);
  }

  /** Tables in which a reservation of the whole repository meets nothing. */
  ghost predicate Vacant(t: Tables, tt: Time, session: Id)
  {
    && session in t.sessions
    && t.sessions[session].status.SessionActive?
    && t.sessions[session].expiresAt > tt
    && t.sessions[session].actor.sponsor == 7
    && !t.project.archived
    && t.project.root == Some(0)
    && (forall id: Id :: id in t.claims ==> id < t.nextId && t.claims[id].intent < t.nextId && t.claims[id].expiresAt <= tt)
  }

  /** Then the reservation succeeds, and its event mentions no overlap. */
  lemma ReservationSucceeds(t: Tables, tt: Time, session: Id, key: string)
    requires Vacant(t, tt, session) && CommandKey(WorkStart, key) !in t.commands
    ensures Reserves(t, tt, session, key, Next(t, tt, Reservation(session, key)))
  {
    hide Scopes.NormalizeScopes;
    WholeRepositoryNormalises();
    var input := Coordination.StartInput(session, "", "", [WHOLE], false);
    assert Exec(t, tt, Reservation(session, key)) == Coordination.StartEffect(t, tt, 7, false, key, 0, input);
    hide Exec;
    StartSucceeds(t, tt, session, key, input);
  }

  /** What one reservation of the whole repository leaves behind. */
  ghost predicate Reserves(t: Tables, tt: Time, session: Id, key: string, r: Tables)
  {
    && r.claims == t.claims[t.nextId + 2 := Claim(t.nextId + 1, session, 0, WHOLE, ClaimActive, tt, tt, tt + SCOPE_LEASE)]
    && r.nextId == t.nextId + 3
    && r.sessions == t.sessions
    && r.project.root == t.project.root && r.project.archived == t.project.archived
    && r.commands.Keys == t.commands.Keys + {CommandKey(WorkStart, key)}
    && |r.events| == |t.events| + 1
    && t.events <= r.events
    && r.events[|t.events|].payload == IntentStarted([t.nextId + 2], [], false)
  }

  lemma StartSucceeds(t: Tables, tt: Time, session: Id, key: string, input: Coordination.StartInput)
    requires Vacant(t, tt, session) && CommandKey(WorkStart, key) !in t.commands
    requires input == Coordination.StartInput(session, "", "", [WHOLE], false)
    ensures Coordination.StartEffect(t, tt, 7, false, key, 0, input).Ok?
    ensures Reserves(t, tt, session, key, Coordination.StartEffect(t, tt, 7, false, key, 0, input).value.tables)
  {
    StartIsAccepted(t, tt, session, key, input);
    Coordination.StartDelta(t, tt, 7, false, key, 0, input);
    hide Coordination.StartEffect, Coordination.Started, Reserves;
    StartLeaves(t, tt, session, key, input, Coordination.StartEffect(t, tt, 7, false, key, 0, input).value);
  }

  lemma StartLeaves(t: Tables, tt: Time, session: Id, key: string, input: Coordination.StartInput, e: Effect)
    requires Vacant(t, tt, session) && input == Coordination.StartInput(session, "", "", [WHOLE], false)
    requires Coordination.Started(t, tt, key, 0, input, e)
    ensures Reserves(t, tt, session, key, e.tables)
  {
    ClaimsLeft(t, tt, session, key, input, e);
    hide Coordination.ScopeOverlaps, Coordination.Reserved, Coordination.Consecutive, Reserve;
    ReserveFrame(t, CommandKey(WorkStart, key), 0);
    NothingOverlaps(Reserve(t, CommandKey(WorkStart, key), 0), tt);
    assert Coordination.Consecutive(t.nextId + 2, 1) == [t.nextId + 2] by { OneConsecutive(t.nextId + 2); }
  }

  lemma OneConsecutive(first: Id)
    ensures Coordination.Consecutive(first, 1) == [first]
  {
  }

  lemma ClaimsLeft(t: Tables, tt: Time, session: Id, key: string, input: Coordination.StartInput, e: Effect)
    requires Vacant(t, tt, session) && input == Coordination.StartInput(session, "", "", [WHOLE], false)
    requires Coordination.Started(t, tt, key, 0, input, e)
    ensures e.tables.claims == t.claims[t.nextId + 2 := Claim(t.nextId + 1, session, 0, WHOLE, ClaimActive, tt, tt, tt + SCOPE_LEASE)]
  {
    hide Coordination.StartLogged, Coordination.StartAnswered;
    assert t.nextId + 2 in e.tables.claims && t.nextId + 2 !in t.claims;
    Coordination.NewClaim(t, tt, key, 0, input, e, t.nextId + 2);
  }

  lemma StartIsAccepted(t: Tables, tt: Time, session: Id, key: string, input: Coordination.StartInput)
    requires Vacant(t, tt, session) && CommandKey(WorkStart, key) !in t.commands
    requires input == Coordination.StartInput(session, "", "", [WHOLE], false)
    ensures Coordination.StartEffect(t, tt, 7, false, key, 0, input).Ok?
    ensures !Coordination.StartEffect(t, tt, 7, false, key, 0, input).value.replayed
  {
    hide Coordination.ScopeOverlaps, Coordination.Consecutive, AppendEvent, Complete;
    var reserved := Reserve(t, CommandKey(WorkStart, key), 0);
    NothingOverlaps(reserved, tt);
    var inserted := Coordination.InsertIntent(reserved, Intent("", "", t.sessions[session].actor, Active, None, 1, None));
    assert Coordination.InsertClaims(inserted, tt, reserved.nextId, session, 0, [WHOLE]) ==
      Coordination.InsertClaim(inserted, tt, reserved.nextId, session, 0, WHOLE) by {
      assert [WHOLE][..0] == [];
    }
    assert !Coordination.ResourceTaken(inserted, reserved.nextId, 0, WHOLE);
  }

  lemma NothingOverlaps(t: Tables, tt: Time)
    requires forall id: Id :: id in t.claims ==> t.claims[id].expiresAt <= tt
    ensures Coordination.ScopeOverlaps(t, tt, 0, [WHOLE]) == []
  {
    var rows := Coordination.ReservingRows(t, tt, 0, t.nextId);
    EmptyOrFirst(rows);
    assert Coordination.OverlapsOfOne(t, WHOLE, rows) == [];
    assert Coordination.OverlapsOfAll(t, [WHOLE][..0], rows) == [];
  }

  lemma EmptyOrFirst(rows: seq<Id>)
    ensures rows == [] || rows[0] in rows
  {
  }

  lemma StartSessionSucceeds(t: Tables, tt: Time, agentType: string)
    requires !t.project.archived && (forall id :: id in t.sessions ==> t.sessions[id].actor.agentType != agentType)
    ensures var r := Next(t, tt, StartSession(7, agentType, "n", false));
      r == t.(sessions := t.sessions[t.nextId := Session(Agent(7, agentType), "n", SessionActive, false, tt, tt, tt + SESSION_TTL)],
              nextId := t.nextId + 1)
  {
    assert AgentSessions.ExpirePredecessors(t.sessions, Agent(7, agentType), "n") == t.sessions;
    assert Exec(t, tt, StartSession(7, agentType, "n", false)) == AgentSessions.SessionStartEffect(t, tt, 7, agentType, "n", false);
    hide Exec;
  }

  /** After the first reservation. */
  ghost predicate OneReserved(t: Tables)
  {
    && !t.project.archived && t.project.root == Some(0) && t.nextId == 6
    && t.sessions == map[2 := Session(Agent(7, "a"), "n", SessionActive, false, 0, 0, 45)]
    && t.claims == map[5 := Claim(4, 2, 0, WHOLE, ClaimActive, 0, 0, 60)]
    && t.commands.Keys == {CommandKey(WorkStart, "first")}
    && |t.events| == 2 && t.events[0].payload.ProjectCreated? && t.events[1].payload == IntentStarted([5], [], false)
  }

  lemma FirstReservation()
    ensures OneReserved(Next(Next(Projects.Created(None, Some(ROOT)), 0, StartSession(7, "a", "n", false)), 0, Reservation(2, "first")))
  {
    hide Next;
    var t0 := Projects.Created(None, Some(ROOT));
    StartSessionSucceeds(t0, 0, "a");
    ReservationSucceeds(Next(t0, 0, StartSession(7, "a", "n", false)), 0, 2, "first");
  }

  /** Before the late heartbeat: the lapsed claim 5 and, beside it, the claim 9 that took its place. */
  ghost predicate BothReserved(t: Tables)
  {
    && 2 in t.sessions && t.sessions[2] == Session(Agent(7, "a"), "n", SessionActive, false, 0, 0, 45)
    && t.claims == Before()
    && |t.events| == 3 && t.events[0].payload.ProjectCreated?
    && t.events[1].payload == IntentStarted([5], [], false) && t.events[2].payload == IntentStarted([9], [], false)
  }

  lemma SecondReservation(t: Tables)
    requires OneReserved(t)
    ensures BothReserved(Next(Next(t, 30, StartSession(7, "b", "n", false)), 61, Reservation(6, "second")))
  {
    hide Next;
    assert "a" != "b" by { assert "a"[0] != "b"[0]; }
    StartSessionSucceeds(t, 30, "b");
    assert "first" != "second" by { assert |"first"| != |"second"|; }
    ReservationSucceeds(Next(t, 30, StartSession(7, "b", "n", false)), 61, 6, "second");
  }

  lemma FirstFour(t: Tables)
    ensures After(t, LateRun()[..4]) ==
      Next(Next(Next(Next(t, 0, StartSession(7, "a", "n", false)), 0, Reservation(2, "first")), 30, StartSession(7, "b", "n", false)),
           61, Reservation(6, "second"))
  {
    hide Next;
    assert LateRun()[..0] == [];
    AfterSnoc(t, LateRun(), 0);
    AfterSnoc(t, LateRun(), 1);
    AfterSnoc(t, LateRun(), 2);
    AfterSnoc(t, LateRun(), 3);
  }

  /** The run is timed, every transaction even carries the very clock at which it takes effect, no
      override is asked for, and yet in the end two exclusive reservations of the whole repository are
      live at once and neither knows of the other. */
  lemma LateHeartbeatBreaksExclusion()
    ensures Timed(LateRun())
    ensures var t := At(None, Some(ROOT), LateRun(), 5);
      Conflict(t, 5, 9) && Live(t, 5, 62) && Live(t, 9, 62) && !Recorded(t, 5, 9)
    ensures !ExcludedThroughout(None, Some(ROOT), LateRun())
  {
    hide Next, At;
    var before := At(None, Some(ROOT), LateRun(), 4);
    assert BothReserved(before) by { ReachBoth(); }
    AtStep(None, Some(ROOT), LateRun(), 4);
    var t := At(None, Some(ROOT), LateRun(), 5);
    BeatRevives(before);
    Overlapping();
    assert forall i :: 0 <= i < |t.events| ==> !Acknowledges(t.events[i], 8, 5, 9);
    assert Conflict(t, 5, 9) && Live(t, 5, 62) && Live(t, 9, 62);
    assert LateRun()[4].clock == 62 && !ExclusionAt(At(None, Some(ROOT), LateRun(), 4 + 1), 62);
  }

  lemma ReachBoth()
    ensures BothReserved(At(None, Some(ROOT), LateRun(), 4))
  {
    hide Next, OneReserved, BothReserved;
    var t := Projects.Created(None, Some(ROOT));
    FirstFour(t);
    FirstReservation();
    SecondReservation(Next(Next(t, 0, StartSession(7, "a", "n", false)), 0, Reservation(2, "first")));
  }

  function Before(): map<Id, Claim>
  {
    map[5 := Claim(4, 2, 0, WHOLE, ClaimActive, 0, 0, 60), 9 := Claim(8, 6, 0, WHOLE, ClaimActive, 61, 61, 121)]
  }

  lemma RenewedClaims()
    ensures AgentSessions.RenewalInOrder(Before(), 2, 62)
    ensures AgentSessions.RenewClaims(Before(), 2, 62)[5] == Claim(4, 2, 0, WHOLE, ClaimActive, 0, 62, 122)
    ensures AgentSessions.RenewClaims(Before(), 2, 62)[9] == Before()[9]
  {
  }

  lemma BeatRevives(t: Tables)
    requires BothReserved(t)
    ensures var r := Next(t, 62, Heartbeat(7, false, 2));
      && 5 in r.claims && r.claims[5] == Claim(4, 2, 0, WHOLE, ClaimActive, 0, 62, 122)
      && 9 in r.claims && r.claims[9] == Claim(8, 6, 0, WHOLE, ClaimActive, 61, 61, 121)
      && r.events == t.events
  {
    assert t.claims == Before();
    RenewedClaims();
    hide Exec, AgentSessions.RenewClaims, AgentSessions.RenewalInOrder;
    HeartbeatIsExec(t, 62, Heartbeat(7, false, 2));
  }

  lemma Overlapping()
    ensures Scopes.Intersect(WHOLE, WHOLE)
  {
    assert Text.Ordinary("a");
    assert Scopes.Covers(WHOLE, ["a"]);
  }
}
