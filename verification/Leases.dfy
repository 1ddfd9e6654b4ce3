/** Lease arithmetic: sessions against the claims they hold. */
module Leases {
  import opened Wrappers
  import opened Tables
  import opened Commands
  import opened Server
  import opened Frames
  import opened Work
  import opened Runs
  import Scopes
  import Coordination
  import AgentSessions
  import HandoffProtocol
  import Log
  import History
  import Canonical
  import Idempotency
  import Projects

  const MARGIN: Time := SCOPE_LEASE - SESSION_TTL

  predicate Open(sessions: map<Id, Session>, id: Id)
  {
    id in sessions && OpenSession(sessions[id].status)
  }

  /** An agent has at most one open session on a node. */
  ghost predicate OneOpenSessionEach(sessions: map<Id, Session>)
  {
    forall a: Id, b: Id ::
      Open(sessions, a) && Open(sessions, b) && sessions[a].actor == sessions[b].actor && sessions[a].node == sessions[b].node ==> a == b
  }

  /** Claims belong to known sessions, and an active session lapses 45 seconds after it was last seen. */
  ghost predicate SessionsSound(t: Tables)
  {
    && (forall id: Id :: id in t.claims ==> t.claims[id].session in t.sessions)
    && OneOpenSessionEach(t.sessions)
    && (forall s: Id :: s in t.sessions && t.sessions[s].status.SessionActive? ==> t.sessions[s].expiresAt == t.sessions[s].lastSeenAt + SESSION_TTL)
  }

  /** Every active claim of an active session outlives the session by 15 seconds or more. */
  ghost predicate ClaimsOutliveSessions(t: Tables)
  {
    forall id: Id :: id in t.claims && t.claims[id].status.ClaimActive? && HeldByActive(t, t.claims[id].session) ==>
      t.claims[id].expiresAt >= t.sessions[t.claims[id].session].expiresAt + MARGIN
  }

  predicate HeldByActive(t: Tables, session: Id)
  {
    session in t.sessions && t.sessions[session].status.SessionActive?
  }

  /** A reservation must not carry a timestamp older than its session's last sign of life. */
  ghost predicate StartsInOrder(t: Tables, tt: Time, c: Command)
  {
    c.StartWork? && Exec(t, tt, c).Ok? && !Exec(t, tt, c).value.replayed && c.request.session in t.sessions ==>
      t.sessions[c.request.session].lastSeenAt <= tt
  }

  // ---- Steps ----

  lemma SessionsKept(t: Tables, tt: Time, c: Command, e: Effect)
    requires Fresh(t, tt, c, e) && Numbered(t) && SessionsSound(t)
    ensures SessionsSound(e.tables)
  {
    FreshIsFramed(t, tt, c, e);
    if c.StartWork? {
      StartIsFresh(t, tt, c, e);
      hide Fresh;
      SessionsByStart(t, tt, c.key, c.hash, Coordination.WithScopes(c.request, Scopes.NormalizeScopes(c.request.scopes).value), e);
    } else if MovesSessions(c) || c.UpdateStatus? {
      SessionsByOthers(t, tt, c, e);
    } else {
      hide Fresh;
    }
  }

  lemma SessionsByStart(t: Tables, tt: Time, key: string, hash: Hash, input: Coordination.StartInput, e: Effect)
    requires Coordination.Started(t, tt, key, hash, input, e) && SessionsSound(t) && Numbered(t)
    ensures SessionsSound(e.tables)
  {
    hide Coordination.StartLogged, Coordination.StartAnswered;
    forall id: Id | id in e.tables.claims && id !in t.claims ensures e.tables.claims[id].session == input.session {
      Coordination.NewClaim(t, tt, key, hash, input, e, id);
    }
  }

  lemma SessionsByOthers(t: Tables, tt: Time, c: Command, e: Effect)
    requires Fresh(t, tt, c, e) && (MovesSessions(c) || c.UpdateStatus?) && SessionsSound(t) && Framed(t, c, e.tables)
    ensures SessionsSound(e.tables)
  {
    if c.UpdateStatus? {
      MovesReleaseOnly(t, tt, c, e);
      hide Fresh;
    } else if c.StartSession? {
      SessionsByNewSession(t, tt, c.principal, c.agentType, c.node, c.observesGit, e);
    } else if c.Heartbeat? {
      SessionsByHeartbeat(t, tt, c.principal, c.allowAll, c.session, e);
    } else if c.CloseSession? {
      SessionsByClose(t, tt, c.principal, c.allowAll, c.session, e);
    } else {
      SessionsByRevocation(t, tt, c.sponsor, e);
    }
  }

  lemma SessionsByNewSession(t: Tables, tt: Time, principal: Id, agentType: string, node: string, observesGit: bool, e: Effect)
    requires AgentSessions.SessionStartEffect(t, tt, principal, agentType, node, observesGit) == Ok(e) && SessionsSound(t)
    ensures SessionsSound(e.tables)
  {
  }

  lemma SessionsByHeartbeat(t: Tables, tt: Time, principal: Id, allowAll: bool, session: Id, e: Effect)
    requires AgentSessions.HeartbeatEffect(t, tt, principal, allowAll, session) == Ok(e) && SessionsSound(t)
    ensures SessionsSound(e.tables)
  {
    hide AgentSessions.RenewalInOrder;
    assert forall s: Id :: Open(e.tables.sessions, s) <==> Open(t.sessions, s);
  }

  lemma SessionsByClose(t: Tables, tt: Time, principal: Id, allowAll: bool, session: Id, e: Effect)
    requires AgentSessions.CloseEffect(t, tt, principal, allowAll, session) == Ok(e) && SessionsSound(t)
    ensures SessionsSound(e.tables)
  {
    assert forall s: Id :: Open(e.tables.sessions, s) ==> Open(t.sessions, s);
  }

  lemma SessionsByRevocation(t: Tables, tt: Time, sponsor: Id, e: Effect)
    requires e.tables == AgentSessions.RevokeSponsorEffect(t, tt, sponsor) && SessionsSound(t)
    ensures SessionsSound(e.tables)
  {
    assert forall s: Id :: Open(e.tables.sessions, s) ==> Open(t.sessions, s);
  }

  /** One reservation keeps the margin if and only if its timestamp is not older than the session's last
      sign of life. */
  lemma MarginByStart(t: Tables, tt: Time, key: string, hash: Hash, input: Coordination.StartInput, e: Effect)
    requires Coordination.Started(t, tt, key, hash, input, e) && input.scopes != [] && Numbered(t)
    requires SessionsSound(t) && ClaimsOutliveSessions(t)
    ensures ClaimsOutliveSessions(e.tables) <==> t.sessions[input.session].lastSeenAt <= tt
  {
    hide Coordination.StartLogged, Coordination.StartAnswered;
    var r, first := e.tables, t.nextId + 2;
    forall id: Id | id in r.claims && id !in t.claims
      ensures r.claims[id].session == input.session && r.claims[id].expiresAt == tt + SCOPE_LEASE && r.claims[id].status.ClaimActive?
    {
      Coordination.NewClaim(t, tt, key, hash, input, e, id);
    }
    assert first in r.claims && first !in t.claims;
    assert HeldByActive(r, r.claims[first].session);
  }

  /** Every other step keeps it, whatever its timestamp. */
  lemma MarginByOthers(t: Tables, tt: Time, c: Command, e: Effect)
    requires Fresh(t, tt, c, e) && !c.StartWork? && Numbered(t) && SessionsSound(t) && ClaimsOutliveSessions(t)
    ensures ClaimsOutliveSessions(e.tables)
  {
    hide Fresh;
    FreshIsFramed(t, tt, c, e);
    if c.UpdateStatus? {
      MovesReleaseOnly(t, tt, c, e);
    } else if MovesSessions(c) {
      hide Numbered;
      assert forall id: Id :: id in t.claims ==> t.claims[id].session != t.nextId by { SessionsAreNumbered(t); }
      MarginBySessions(t, tt, c, e);
    }
  }

  lemma SessionsAreNumbered(t: Tables)
    requires Numbered(t) && SessionsSound(t)
    ensures forall id: Id :: id in t.claims ==> t.claims[id].session != t.nextId
  {
  }

  lemma MarginBySessions(t: Tables, tt: Time, c: Command, e: Effect)
    requires Fresh(t, tt, c, e) && Framed(t, c, e.tables) && MovesSessions(c) && ClaimsOutliveSessions(t)
    requires forall id: Id :: id in t.claims ==> t.claims[id].session != t.nextId
    ensures ClaimsOutliveSessions(e.tables)
  {
  }

  // ---- Whole runs ----

  lemma SessionsAtStart(revision: Option<string>, root: Option<Projects.RootInput>, steps: seq<Step>)
    ensures SessionsSound(At(revision, root, steps, 0)) && ClaimsOutliveSessions(At(revision, root, steps, 0))
    ensures At(revision, root, steps, 0).sessions == map[]
  {
    assert steps[..0] == [];
  }

  lemma {:induction false} SessionsAreSound(revision: Option<string>, root: Option<Projects.RootInput>, steps: seq<Step>, n: nat)
    requires n <= |steps|
    ensures SessionsSound(At(revision, root, steps, n))
  {
    hide At, Next, SessionsSound, Invariant;
    SessionsAtStart(revision, root, steps);
    if n > 0 {
      SessionsAreSound(revision, root, steps, n - 1);
      ReachableIsSound(revision, root, steps, n - 1);
      AtStep(revision, root, steps, n - 1);
      StepKeepsSessions(At(revision, root, steps, n - 1), steps[n - 1].tt, steps[n - 1].command);
    }
  }

  lemma StepKeepsSessions(t: Tables, tt: Time, c: Command)
    requires Invariant(t) && SessionsSound(t)
    ensures SessionsSound(Next(t, tt, c))
  {
    hide Exec, Fresh, SessionsSound, WorkSound, Log.LogSound, History.PacksPlaced, HandoffProtocol.HandoffsSound, Canonical.CanonSound, Numbered;
    if Exec(t, tt, c).Ok? {
      Outcomes(t, tt, c);
      if !Exec(t, tt, c).value.replayed {
        SessionsKept(t, tt, c, Exec(t, tt, c).value);
      }
    }
  }

  lemma MarginByStep(t: Tables, tt: Time, c: Command)
    requires Invariant(t) && SessionsSound(t) && ClaimsOutliveSessions(t)
    ensures ClaimsOutliveSessions(Next(t, tt, c)) <==> StartsInOrder(t, tt, c)
  {
    hide Exec, Fresh, SessionsSound, ClaimsOutliveSessions, WorkSound, Log.LogSound, History.PacksPlaced, HandoffProtocol.HandoffsSound,
      Canonical.CanonSound, Numbered;
    if Exec(t, tt, c).Ok? {
      var e := Exec(t, tt, c).value;
      Outcomes(t, tt, c);
      if !e.replayed {
        if c.StartWork? {
          StartIsFresh(t, tt, c, e);
          Scopes.NormalForm(c.request.scopes);
          MarginByFreshStart(t, tt, c, e);
        } else {
          MarginByOthers(t, tt, c, e);
        }
      }
    }
  }

  lemma MarginByFreshStart(t: Tables, tt: Time, c: Command, e: Effect)
    requires c.StartWork? && Scopes.NormalizeScopes(c.request.scopes).Ok? && Scopes.NormalizeScopes(c.request.scopes).value != []
    requires Coordination.Started(t, tt, c.key, c.hash, Coordination.WithScopes(c.request, Scopes.NormalizeScopes(c.request.scopes).value), e)
    requires Numbered(t) && SessionsSound(t) && ClaimsOutliveSessions(t)
    ensures c.request.session in t.sessions
    ensures ClaimsOutliveSessions(e.tables) <==> t.sessions[c.request.session].lastSeenAt <= tt
  {
    MarginByStart(t, tt, c.key, c.hash, Coordination.WithScopes(c.request, Scopes.NormalizeScopes(c.request.scopes).value), e);
    hide Scopes.NormalizeScopes, ClaimsOutliveSessions, Numbered, SessionsSound, Coordination.StartLogged, Coordination.StartAnswered, Coordination.Reserved;
  }

  /** Over every run: active claims outlive active sessions by 15 seconds in all states up to the n-th
      if and only if no accepted reservation among the first n steps was dated before its session's
      last sign of life. How late the heartbeats are does not matter. */
  lemma {:induction false} MarginOverRuns(revision: Option<string>, root: Option<Projects.RootInput>, steps: seq<Step>, n: nat)
    requires n <= |steps|
    ensures (forall m :: 0 <= m <= n ==> ClaimsOutliveSessions(At(revision, root, steps, m))) <==>
      (forall m :: 0 <= m < n ==> StartsInOrder(At(revision, root, steps, m), steps[m].tt, steps[m].command))
  {
    hide At, Next, SessionsSound, ClaimsOutliveSessions, StartsInOrder, Invariant;
    SessionsAtStart(revision, root, steps);
    if n > 0 {
      MarginOverRuns(revision, root, steps, n - 1);
      SessionsAreSound(revision, root, steps, n - 1);
      ReachableIsSound(revision, root, steps, n - 1);
      AtStep(revision, root, steps, n - 1);
      var t, step := At(revision, root, steps, n - 1), steps[n - 1];
      if ClaimsOutliveSessions(t) {
        MarginByStep(t, step.tt, step.command);
      }
    }
  }

  // ---- Timestamps in order ----

  ghost predicate SeenBy(t: Tables, now: Time)
  {
    forall s: Id :: HeldByActive(t, s) ==> t.sessions[s].lastSeenAt <= now
  }

  lemma FreshIsSeen(t: Tables, tt: Time, c: Command, e: Effect, now: Time)
    requires Fresh(t, tt, c, e) && SeenBy(t, now) && now <= tt
    ensures SeenBy(e.tables, tt)
  {
    FreshIsFramed(t, tt, c, e);
    if !MovesSessions(c) { hide Fresh; }
  }

  lemma StepIsSeen(t: Tables, tt: Time, c: Command, now: Time)
    requires SeenBy(t, now) && now <= tt
    ensures SeenBy(Next(t, tt, c), tt)
  {
    hide Exec, Fresh;
    if Exec(t, tt, c).Ok? {
      Outcomes(t, tt, c);
      if !Exec(t, tt, c).value.replayed {
        FreshIsSeen(t, tt, c, Exec(t, tt, c).value, now);
      }
    }
  }

  ghost predicate InOrder(steps: seq<Step>)
  {
    forall i, j :: 0 <= i < j < |steps| ==> steps[i].tt <= steps[j].tt
  }

  lemma {:induction false} RunIsSeen(revision: Option<string>, root: Option<Projects.RootInput>, steps: seq<Step>, n: nat)
    requires n < |steps| && InOrder(steps)
    ensures SeenBy(At(revision, root, steps, n), steps[n].tt)
  {
    hide At, Next;
    SessionsAtStart(revision, root, steps);
    if n > 0 {
      RunIsSeen(revision, root, steps, n - 1);
      AtStep(revision, root, steps, n - 1);
      StepIsSeen(At(revision, root, steps, n - 1), steps[n - 1].tt, steps[n - 1].command, steps[n - 1].tt);
    }
  }

  /** With timestamps in order, a session that passes authorizeSession holds all its active claims
      unexpired, with more than 15 seconds to spare. */
  lemma AuthorisedSessionHoldsItsClaims(
    revision: Option<string>, root: Option<Projects.RootInput>, steps: seq<Step>, n: nat,
    tt: Time, principal: Id, allowAll: bool, session: Id, claim: Id)
    requires n <= |steps| && InOrder(steps)
    requires Authorize(At(revision, root, steps, n), tt, principal, allowAll, session).Ok?
    requires claim in At(revision, root, steps, n).claims
    requires AgentSessions.OwnsClaim(At(revision, root, steps, n).claims[claim], session)
    ensures At(revision, root, steps, n).claims[claim].expiresAt > tt + MARGIN
  {
    hide At, Exec;
    forall m | 0 <= m < n ensures StartsInOrder(At(revision, root, steps, m), steps[m].tt, steps[m].command) {
      RunIsSeen(revision, root, steps, m);
      AuthorisedIsActive(At(revision, root, steps, m), steps[m].tt, steps[m].command);
    }
    MarginOverRuns(revision, root, steps, n);
    assert ClaimsOutliveSessions(At(revision, root, steps, n));
  }

  lemma AuthorisedIsActive(t: Tables, tt: Time, c: Command)
    ensures c.StartWork? && Exec(t, tt, c).Ok? && !Exec(t, tt, c).value.replayed ==> HeldByActive(t, c.request.session)
  {
    hide Exec, Scopes.NormalizeScopes, Coordination.Reserved, Coordination.StartLogged, Coordination.StartAnswered;
    if Exec(t, tt, c).Ok? {
      Outcomes(t, tt, c);
    }
  }

  // ---- Sessions that are over ----

  ghost predicate Over(t: Tables, session: Id)
  {
    session in t.sessions && !t.sessions[session].status.SessionActive?
  }

  /** What a session that is over holds only shrinks: no new claim, no renewal. */
  ghost predicate OnlyShrinks(t: Tables, r: Tables, session: Id)
  {
    forall id: Id :: id in r.claims && r.claims[id].session == session ==>
      && id in t.claims
      && r.claims[id].session == t.claims[id].session
      && r.claims[id].expiresAt == t.claims[id].expiresAt
      && r.claims[id].renewedAt == t.claims[id].renewedAt
      && (r.claims[id].status.ClaimActive? ==> t.claims[id].status.ClaimActive?)
  }

  lemma FreshLeavesOverSessions(t: Tables, tt: Time, c: Command, e: Effect, session: Id)
    requires Fresh(t, tt, c, e) && Numbered(t) && Over(t, session)
    ensures Over(e.tables, session) && OnlyShrinks(t, e.tables, session)
  {
    FreshIsFramed(t, tt, c, e);
    if c.StartWork? {
      StartIsFresh(t, tt, c, e);
      hide Fresh;
      StartLeavesOverSessions(t, tt, c.key, c.hash, Coordination.WithScopes(c.request, Scopes.NormalizeScopes(c.request.scopes).value), e, session);
    } else if c.UpdateStatus? {
      MovesReleaseOnly(t, tt, c, e);
      hide Fresh;
    } else if MovesSessions(c) {
      SessionsLeaveOver(t, tt, c, e, session);
    } else {
      hide Fresh;
    }
  }

  lemma SessionsLeaveOver(t: Tables, tt: Time, c: Command, e: Effect, session: Id)
    requires Fresh(t, tt, c, e) && Framed(t, c, e.tables) && MovesSessions(c) && Numbered(t) && Over(t, session)
    ensures Over(e.tables, session) && OnlyShrinks(t, e.tables, session)
  {
    hide AgentSessions.RenewalInOrder;
  }

  lemma StartLeavesOverSessions(t: Tables, tt: Time, key: string, hash: Hash, input: Coordination.StartInput, e: Effect, session: Id)
    requires Coordination.Started(t, tt, key, hash, input, e) && Numbered(t) && Over(t, session)
    ensures Over(e.tables, session) && OnlyShrinks(t, e.tables, session)
  {
    hide Coordination.StartLogged, Coordination.StartAnswered;
    forall id: Id | id in e.tables.claims && id !in t.claims ensures e.tables.claims[id].session == input.session {
      Coordination.NewClaim(t, tt, key, hash, input, e, id);
    }
  }

  /** A session that is closed or replaced stays so, and never has a claim renewed or granted again. */
  lemma {:induction false} SessionsThatAreOverStayOver(
    revision: Option<string>, root: Option<Projects.RootInput>, steps: seq<Step>, m: nat, n: nat, session: Id)
    requires m <= n <= |steps| && Over(At(revision, root, steps, m), session)
    ensures Over(At(revision, root, steps, n), session)
    ensures OnlyShrinks(At(revision, root, steps, m), At(revision, root, steps, n), session)
  {
    hide At, Next, Exec, Fresh, WorkSound, Log.LogSound, History.PacksPlaced, HandoffProtocol.HandoffsSound, Canonical.CanonSound;
    if m < n {
      SessionsThatAreOverStayOver(revision, root, steps, m, n - 1, session);
      ReachableIsSound(revision, root, steps, n - 1);
      AtStep(revision, root, steps, n - 1);
      StepLeavesOverSessions(At(revision, root, steps, n - 1), steps[n - 1].tt, steps[n - 1].command, session);
    }
  }

  lemma StepLeavesOverSessions(t: Tables, tt: Time, c: Command, session: Id)
    requires Numbered(t) && Over(t, session)
    ensures Over(Next(t, tt, c), session) && OnlyShrinks(t, Next(t, tt, c), session)
  {
    hide Exec, Fresh, Numbered;
    if Exec(t, tt, c).Ok? {
      Outcomes(t, tt, c);
      if !Exec(t, tt, c).value.replayed {
        FreshLeavesOverSessions(t, tt, c, Exec(t, tt, c).value, session);
      }
    }
  }

  /** In every reachable state an agent has at most one open session on a node: a new one replaces the old. */
  lemma OneOpenSessionPerNode(revision: Option<string>, root: Option<Projects.RootInput>, steps: seq<Step>, n: nat)
    requires n <= |steps|
    ensures OneOpenSessionEach(At(revision, root, steps, n).sessions)
  {
    SessionsAreSound(revision, root, steps, n);
    hide At, OneOpenSessionEach;
  }
}
