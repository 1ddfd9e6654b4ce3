/** Exclusion across leases, over whole runs. */
module Exclusion {
  import opened Wrappers
  import opened Tables
  import opened Commands
  import opened Server
  import opened Frames
  import opened Work
  import opened Runs
  import Scopes
  import Coordination
  import AgentSessions
  import HandoffProtocol
  import Log
  import History
  import Canonical
  import Idempotency
  import Projects

  // ---- The property ----

  /** Two active claims of different intents that reserve intersecting paths of one repository, at
      least one of them exclusively. */
  ghost predicate Conflict(t: Tables, a: Id, b: Id)
  {
    && a in t.claims && b in t.claims
    && t.claims[a].status.ClaimActive? && t.claims[b].status.ClaimActive?
    && t.claims[a].intent != t.claims[b].intent
    && t.claims[a].repository == t.claims[b].repository
    && Scopes.Intersect(t.claims[a].scope, t.claims[b].scope)
    && (t.claims[a].scope.mode.Exclusive? || t.claims[b].scope.mode.Exclusive?)
  }

  ghost predicate Live(t: Tables, id: Id, now: Time)
  {
    id in t.claims && t.claims[id].expiresAt > now
  }

  /** The later claim was granted knowingly: its intent's started event says so and lists the earlier claim. */
  ghost predicate Recorded(t: Tables, a: Id, b: Id)
    requires b in t.claims
  {
    exists i :: 0 <= i < |t.events| && Acknowledges(t.events[i], t.claims[b].intent, a, b)
  }

  ghost predicate Acknowledges(e: Event, intent: Id, a: Id, b: Id)
  {
    && e.aggregate == IntentAggregate(intent)
    && e.payload.IntentStarted?
    && e.payload.overlapOverride
    && b in e.payload.claims
    && exists o :: o in e.payload.overlaps && o.claim == a && o.blocking
  }

  /** Claims are numbered in the order in which they were made, so of two claims the one with the
      larger identifier is the later. */
  ghost predicate ExclusionAt(t: Tables, now: Time)
  {
    forall a: Id, b: Id :: a < b && Conflict(t, a, b) && Live(t, a, now) && Live(t, b, now) ==> Recorded(t, a, b)
  }

  lemma ExclusionOutlastsTheClock(t: Tables, now: Time, later: Time)
    requires ExclusionAt(t, now) && now <= later
    ensures ExclusionAt(t, later)
  {
  }

  // ---- Steps that revive nothing ----

  /** Claims keep what they reserve, and none comes alive that was not: old claims are as long-lived
      as before or shorter. */
  ghost predicate NoRevival(t: Tables, r: Tables)
  {
    && t.events <= r.events
    && (forall id: Id :: id in t.claims ==>
          && id in r.claims
          && r.claims[id] == t.claims[id].(status := r.claims[id].status)
          && (r.claims[id].status.ClaimActive? ==> t.claims[id].status.ClaimActive?))
  }

  lemma RecordedStays(t: Tables, r: Tables, a: Id, b: Id)
    requires t.events <= r.events && b in t.claims && b in r.claims && r.claims[b].intent == t.claims[b].intent
    requires Recorded(t, a, b)
    ensures Recorded(r, a, b)
  {
    var i :| 0 <= i < |t.events| && Acknowledges(t.events[i], t.claims[b].intent, a, b);
    assert r.events[i] == t.events[i];
  }

  lemma ExclusionWithoutRevival(t: Tables, r: Tables, now: Time)
    requires ExclusionAt(t, now) && NoRevival(t, r) && forall id :: id in r.claims ==> id in t.claims
    ensures ExclusionAt(r, now)
  {
    hide Scopes.Intersect, Recorded;
    forall a: Id, b: Id | a < b && Conflict(r, a, b) && Live(r, a, now) && Live(r, b, now) ensures Recorded(r, a, b) {
      assert Conflict(t, a, b);
      RecordedStays(t, r, a, b);
    }
  }

  lemma OthersReviveNothing(t: Tables, tt: Time, c: Command, e: Effect)
    requires Fresh(t, tt, c, e) && !c.StartWork? && !c.Heartbeat?
    ensures NoRevival(t, e.tables) && forall id :: id in e.tables.claims ==> id in t.claims
  {
    FreshIsFramed(t, tt, c, e);
    hide Fresh, NoRevival;
    if c.UpdateStatus? {
      MovesReviveNothing(t, tt, c, e);
    } else if c.CloseSession? {
      CloseRevivesNothing(t, tt, c, e);
    } else {
      SameRevivesNothing(t, e.tables);
    }
  }

  lemma MovesReviveNothing(t: Tables, tt: Time, c: Command, e: Effect)
    requires Fresh(t, tt, c, e) && c.UpdateStatus?
    ensures NoRevival(t, e.tables) && forall id :: id in e.tables.claims ==> id in t.claims
  {
    MovesReleaseOnly(t, tt, c, e);
    hide Fresh;
  }

  lemma SameRevivesNothing(t: Tables, r: Tables)
    requires r.claims == t.claims && t.events <= r.events
    ensures NoRevival(t, r)
  {
  }

  lemma CloseRevivesNothing(t: Tables, tt: Time, c: Command, e: Effect)
    requires Fresh(t, tt, c, e) && Framed(t, c, e.tables) && c.CloseSession?
    ensures NoRevival(t, e.tables) && forall id :: id in e.tables.claims ==> id in t.claims
  {
  }

  // ---- work.start ----

  lemma ExclusionByStart(t: Tables, tt: Time, key: string, hash: Hash, input: Coordination.StartInput, e: Effect, now: Time)
    requires Coordination.Started(t, tt, key, hash, input, e)
    requires (forall s :: s in input.scopes ==> Scopes.NormalScope(s)) && Numbered(t) && ClaimsSound(t)
    requires ExclusionAt(t, now) && tt <= now
    ensures ExclusionAt(e.tables, now)
  {
    hide Scopes.Intersect, Scopes.NormalScope, Recorded, Coordination.StartLogged, Coordination.StartAnswered, SameSessions, SameHandoffs, SamePacks, SameCanon;
    var r, first := e.tables, t.nextId + 2;
    assert t.events <= r.events by { StartExtendsLog(t, tt, key, hash, input, e); }
    forall a: Id, b: Id | a < b && Conflict(r, a, b) && Live(r, a, now) && Live(r, b, now) ensures Recorded(r, a, b) {
      if b in t.claims {
        assert Conflict(t, a, b);
        RecordedStays(t, r, a, b);
      } else {
        var k := b - first;
        Coordination.NewClaim(t, tt, key, hash, input, e, b);
        if a in t.claims {
          GrantedKnowingly(t, tt, key, hash, input, e, a, k);
        } else {
          Coordination.NewClaim(t, tt, key, hash, input, e, a);
        }
      }
    }
  }

  lemma StartExtendsLog(t: Tables, tt: Time, key: string, hash: Hash, input: Coordination.StartInput, e: Effect)
    requires Coordination.Started(t, tt, key, hash, input, e)
    ensures t.events <= e.tables.events
  {
    hide Coordination.ScopeOverlaps, Coordination.HasBlocking, Coordination.Reserved;
  }

  /** The overlap query sees every live claim on the repository, and lists it for every requested
      scope it conflicts with. */
  lemma QuerySees(t: Tables, tt: Time, repository: Id, requested: seq<Scopes.Scope>, a: Id, k: nat)
    requires a < t.nextId && a in t.claims && ClaimsSound(t)
    requires t.claims[a].status.ClaimActive? && t.claims[a].expiresAt > tt && t.claims[a].repository == repository
    requires k < |requested| && Scopes.NormalScope(requested[k])
    requires Scopes.Intersect(t.claims[a].scope, requested[k])
    requires t.claims[a].scope.mode.Exclusive? || requested[k].mode.Exclusive?
    ensures var overlaps := Coordination.ScopeOverlaps(t, tt, repository, requested);
      Coordination.HasBlocking(overlaps) && exists o :: o in overlaps && o.claim == a && o.blocking
  {
    hide Scopes.Intersect, Scopes.NormalScope, Scopes.ScopesOverlap, Coordination.ReservingRows, Coordination.OverlapsOfAll;
    var rows := Coordination.ReservingRows(t, tt, repository, t.nextId);
    assert Coordination.Reserving(t, tt, repository, a);
    assert a in rows;
    IntersectIsSymmetric(t.claims[a].scope, requested[k]);
    Scopes.OverlapIsIntersection(requested[k], t.claims[a].scope);
    var o := Coordination.OverlapWith(t, requested[k], a);
    Coordination.OverlapsAreExact(t, requested, rows, o);
    assert o in Coordination.ScopeOverlaps(t, tt, repository, requested) && o.blocking;
  }

  /** A claim granted beside a live conflicting one is granted knowingly. */
  lemma GrantedKnowingly(t: Tables, tt: Time, key: string, hash: Hash, input: Coordination.StartInput, e: Effect, a: Id, k: nat)
    requires Coordination.Started(t, tt, key, hash, input, e) && Numbered(t) && ClaimsSound(t)
    requires k < |input.scopes| && Scopes.NormalScope(input.scopes[k])
    requires a in t.claims && t.claims[a].status.ClaimActive? && t.claims[a].expiresAt > tt
    requires t.claims[a].repository == t.project.root.value
    requires Scopes.Intersect(t.claims[a].scope, input.scopes[k])
    requires t.claims[a].scope.mode.Exclusive? || input.scopes[k].mode.Exclusive?
    ensures t.nextId + 2 + k in e.tables.claims && Recorded(e.tables, a, t.nextId + 2 + k)
  {
    hide Scopes.Intersect, Scopes.NormalScope, Coordination.ScopeOverlaps, Coordination.HasBlocking, Reserve, SameSessions, SameHandoffs, SamePacks;
    var b := t.nextId + 2 + k;
    var reserved := Reserve(t, CommandKey(WorkStart, key), hash);
    ReserveFrame(t, CommandKey(WorkStart, key), hash);
    QuerySees(reserved, tt, t.project.root.value, input.scopes, a, k);
    assert Coordination.Consecutive(t.nextId + 2, |input.scopes|)[k] == b;
    Coordination.NewClaim(t, tt, key, hash, input, e, b);
    assert Acknowledges(e.tables.events[|e.tables.events| - 1], t.nextId + 1, a, b);
  }

  lemma IntersectIsSymmetric(a: Scopes.Scope, b: Scopes.Scope)
    requires Scopes.Intersect(a, b)
    ensures Scopes.Intersect(b, a)
  {
  }

  // ---- Heartbeats ----

  /** What a heartbeat must not do: bring back a lapsed claim beside another one that conflicts with
      it and is live, or comes back with it, unless the later of the two was granted knowingly. A
      heartbeat that took so long that its own renewal has lapsed is harmless. */
  ghost predicate RevivalSafe(t: Tables, session: Id, tt: Time, now: Time)
  {
    || tt + SCOPE_LEASE <= now
    || forall a: Id, b: Id :: a < b && Conflict(t, a, b) && Meet(t, a, b, session, now) ==> Recorded(t, a, b)
  }

  /** The heartbeat would leave both claims live, at least one of them by reviving it. */
  ghost predicate Meet(t: Tables, a: Id, b: Id, session: Id, now: Time)
  {
    && (Revived(t, a, session, now) || Revived(t, b, session, now))
    && Surviving(t, a, session, now)
    && Surviving(t, b, session, now)
  }

  ghost predicate Revived(t: Tables, id: Id, session: Id, now: Time)
  {
    id in t.claims && AgentSessions.OwnsClaim(t.claims[id], session) && !Live(t, id, now)
  }

  ghost predicate Surviving(t: Tables, id: Id, session: Id, now: Time)
  {
    id in t.claims && (AgentSessions.OwnsClaim(t.claims[id], session) || Live(t, id, now))
  }

  /** Exclusion survives a heartbeat if and only if the heartbeat revives safely. */
  lemma ExclusionByHeartbeat(t: Tables, tt: Time, principal: Id, allowAll: bool, session: Id, now: Time)
    requires AgentSessions.HeartbeatEffect(t, tt, principal, allowAll, session).Ok?
    requires ExclusionAt(t, now)
    ensures ExclusionAt(AgentSessions.HeartbeatEffect(t, tt, principal, allowAll, session).value.tables, now) <==>
      RevivalSafe(t, session, tt, now)
  {
    hide Scopes.Intersect, AgentSessions.RenewalInOrder, Recorded;
    var r := AgentSessions.HeartbeatEffect(t, tt, principal, allowAll, session).value.tables;
    assert r.events == t.events;
    forall a: Id, b: Id ensures Conflict(r, a, b) <==> Conflict(t, a, b) {}
    forall id: Id, other: Id | id in t.claims ensures Recorded(r, other, id) == Recorded(t, other, id) {
      SameRecord(t, r, other, id);
    }
    forall id: Id ensures Live(r, id, now) <==>
      id in t.claims && if AgentSessions.OwnsClaim(t.claims[id], session) then tt + SCOPE_LEASE > now else Live(t, id, now)
    {
    }
    if ExclusionAt(r, now) && tt + SCOPE_LEASE > now {
      forall a: Id, b: Id | a < b && Conflict(t, a, b) && Surviving(t, a, session, now) && Surviving(t, b, session, now) ensures Recorded(t, a, b) {
        assert Conflict(r, a, b) && Live(r, a, now) && Live(r, b, now);
      }
    }
    if RevivalSafe(t, session, tt, now) {
      forall a: Id, b: Id | a < b && Conflict(r, a, b) && Live(r, a, now) && Live(r, b, now) ensures Recorded(r, a, b) {
        assert Conflict(t, a, b);
      }
    }
  }

  lemma SameRecord(t: Tables, r: Tables, a: Id, b: Id)
    requires r.events == t.events && b in t.claims && b in r.claims && r.claims[b].intent == t.claims[b].intent
    ensures Recorded(r, a, b) == Recorded(t, a, b)
  {
  }

  // ---- Whole runs ----

  /** One step: exclusion survives unless the step is a heartbeat that revives unsafely. */
  lemma ExclusionByStep(t: Tables, tt: Time, c: Command, now: Time)
    requires Invariant(t) && ExclusionAt(t, now) && tt <= now
    ensures ExclusionAt(Next(t, tt, c), now) <==> (c.Heartbeat? && Exec(t, tt, c).Ok? ==> RevivalSafe(t, c.session, tt, now))
  {
    hide ExclusionAt, RevivalSafe, Exec, Log.LogSound, History.PacksPlaced, HandoffProtocol.HandoffsSound, Canonical.CanonSound, Idempotency.AllComplete,
      Fresh, Scopes.NormalScope;
    if Exec(t, tt, c).Ok? {
      var e := Exec(t, tt, c).value;
      if c.Heartbeat? {
        HeartbeatIsExec(t, tt, c);
        ExclusionByHeartbeat(t, tt, c.principal, c.allowAll, c.session, now);
      } else {
        Outcomes(t, tt, c);
        if !e.replayed {
          if c.StartWork? {
            StartIsFresh(t, tt, c, e);
            ExclusionByStart(t, tt, c.key, c.hash, Coordination.WithScopes(c.request, Scopes.NormalizeScopes(c.request.scopes).value), e, now);
          } else {
            OthersReviveNothing(t, tt, c, e);
            ExclusionWithoutRevival(t, e.tables, now);
          }
        }
      }
    }
  }

  /** After every step of the run, exclusion holds at that step's clock, and so at every later time. */
  ghost predicate ExcludedThroughout(revision: Option<string>, root: Option<Projects.RootInput>, steps: seq<Step>)
  {
    forall n :: 0 <= n < |steps| ==> ExclusionAt(At(revision, root, steps, n + 1), steps[n].clock)
  }

  ghost predicate HeartbeatSafe(t: Tables, step: Step)
  {
    step.command.Heartbeat? && Exec(t, step.tt, step.command).Ok? ==> RevivalSafe(t, step.command.session, step.tt, step.clock)
  }

  /** Every accepted heartbeat of the run revives safely. */
  ghost predicate RevivesSafely(revision: Option<string>, root: Option<Projects.RootInput>, steps: seq<Step>)
  {
    forall n :: 0 <= n < |steps| ==> HeartbeatSafe(At(revision, root, steps, n), steps[n])
  }

  lemma NothingReservedYet(revision: Option<string>, root: Option<Projects.RootInput>, steps: seq<Step>, now: Time)
    ensures ExclusionAt(At(revision, root, steps, 0), now)
  {
    assert steps[..0] == [];
  }

  /** Exclusion at the next clock, from exclusion after the step before. */
  lemma ExclusionBefore(revision: Option<string>, root: Option<Projects.RootInput>, steps: seq<Step>, n: nat)
    requires Timed(steps) && n < |steps|
    requires n > 0 ==> ExclusionAt(At(revision, root, steps, n), steps[n - 1].clock)
    ensures ExclusionAt(At(revision, root, steps, n), steps[n].clock)
  {
    hide At, ExclusionAt;
    if n == 0 {
      NothingReservedYet(revision, root, steps, steps[0].clock);
    } else {
      ExclusionOutlastsTheClock(At(revision, root, steps, n), steps[n - 1].clock, steps[n].clock);
    }
  }

  lemma {:induction false} ExclusionUpTo(revision: Option<string>, root: Option<Projects.RootInput>, steps: seq<Step>, n: nat)
    requires Timed(steps) && RevivesSafely(revision, root, steps) && n < |steps|
    ensures ExclusionAt(At(revision, root, steps, n + 1), steps[n].clock)
  {
    hide At, ExclusionAt, RevivalSafe, Next, Exec, Invariant;
    if n > 0 {
      ExclusionUpTo(revision, root, steps, n - 1);
    }
    ExclusionBefore(revision, root, steps, n);
    ReachableIsSound(revision, root, steps, n);
    AtStep(revision, root, steps, n);
    ExclusionByStep(At(revision, root, steps, n), steps[n].tt, steps[n].command, steps[n].clock);
    assert HeartbeatSafe(At(revision, root, steps, n), steps[n]);
  }

  /** Exclusion over every run, however far each step's timestamp lags the clock: it holds after every
      step if and only if every accepted heartbeat revives safely. */
  lemma ExclusionOverRuns(revision: Option<string>, root: Option<Projects.RootInput>, steps: seq<Step>)
    requires Timed(steps)
    ensures ExcludedThroughout(revision, root, steps) <==> RevivesSafely(revision, root, steps)
  {
    hide At, ExclusionAt, RevivalSafe, Next, Exec, Invariant;
    if RevivesSafely(revision, root, steps) {
      forall n | 0 <= n < |steps| ensures ExclusionAt(At(revision, root, steps, n + 1), steps[n].clock) {
        ExclusionUpTo(revision, root, steps, n);
      }
    }
    if ExcludedThroughout(revision, root, steps) {
      forall n | 0 <= n < |steps| ensures HeartbeatSafe(At(revision, root, steps, n), steps[n]) {
        assert n > 0 ==> ExclusionAt(At(revision, root, steps, n - 1 + 1), steps[n - 1].clock);
        ExclusionBefore(revision, root, steps, n);
        ReachableIsSound(revision, root, steps, n);
        AtStep(revision, root, steps, n);
        assert ExclusionAt(At(revision, root, steps, n + 1), steps[n].clock);
        ExclusionByStep(At(revision, root, steps, n), steps[n].tt, steps[n].command, steps[n].clock);
      }
    }
  }

  /** A heartbeat is timely when every claim it renews is still unexpired as it takes effect. */
  ghost predicate Timely(t: Tables, step: Step)
  {
    step.command.Heartbeat? ==>
      forall id: Id :: id in t.claims && AgentSessions.OwnsClaim(t.claims[id], step.command.session) ==> Live(t, id, step.clock)
  }

  /** Timely heartbeats are enough: at every time from a step's clock on, two live claims of different
      intents that overlap, one of them exclusive, are there only because the later one was granted
      with an override that lists the earlier. */
  lemma TimelyHeartbeatsKeepExclusion(
    revision: Option<string>, root: Option<Projects.RootInput>, steps: seq<Step>, n: nat, now: Time, a: Id, b: Id)
    requires Timed(steps) && n < |steps| && steps[n].clock <= now
    requires forall m :: 0 <= m < |steps| ==> Timely(At(revision, root, steps, m), steps[m])
    requires a < b && Conflict(At(revision, root, steps, n + 1), a, b)
    requires Live(At(revision, root, steps, n + 1), a, now) && Live(At(revision, root, steps, n + 1), b, now)
    ensures Recorded(At(revision, root, steps, n + 1), a, b)
  {
    hide At, Exec, Conflict, Recorded;
    forall m | 0 <= m < |steps| ensures HeartbeatSafe(At(revision, root, steps, m), steps[m]) {
      assert Timely(At(revision, root, steps, m), steps[m]);
    }
    ExclusionOverRuns(revision, root, steps);
  }
}
