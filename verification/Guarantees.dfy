/** What every run of the server guarantees, whatever its commands and timestamps. */
module Guarantees {
  import opened Wrappers
  import opened Tables
  import opened Commands
  import opened Server
  import opened Frames
  import opened Work
  import opened Log
  import opened History
  import opened HandoffProtocol
  import opened Canonical
  import opened Idempotency
  import opened Runs
  import Coordination
  import Handoffs
  import AgentSessions
  import Projects
  import Scopes

  // ---- Finished work ----

  ghost predicate Finished(t: Tables, intent: Id)
  {
    intent in t.intents && IsTerminal(t.intents[intent].status)
  }

  /** The row of finished work never changes again, and nothing becomes completed unless submitted. */
  ghost predicate IntentsProgress(t: Tables, r: Tables)
  {
    && (forall id: Id :: id in t.intents ==> id in r.intents)
    && (forall id: Id :: Finished(t, id) ==> r.intents[id] == t.intents[id])
    && (forall id: Id :: id in r.intents && r.intents[id].status.Completed? ==>
          id in t.intents && (t.intents[id].status.Completed? || t.intents[id].status.Submitted?))
  }

  lemma MovesProgress(t: Tables, tt: Time, c: Command, e: Effect)
    requires Fresh(t, tt, c, e) && MovesIntents(c) && Numbered(t)
    ensures IntentsProgress(t, e.tables)
  {
    hide Scopes.NormalizeScopes, Scopes.NormalScope, Coordination.Reserved, Coordination.StartLogged, Coordination.StartAnswered, Coordination.ReleaseIntent,
      Coordination.FreezeWorktrees, Coordination.ArchiveWorktrees;
  }

  lemma StepProgresses(t: Tables, tt: Time, c: Command)
    requires Invariant(t)
    ensures IntentsProgress(t, Next(t, tt, c))
  {
    hide Exec, Fresh, WorkSound, LogSound, PacksPlaced, HandoffsSound, CanonSound, AllComplete, Repeats;
    if Exec(t, tt, c).Ok? {
      Outcomes(t, tt, c);
      var e := Exec(t, tt, c).value;
      if e.replayed {
        assert e.tables == t by { RepeatWritesNothing(t, tt, c); }
      } else {
        FreshIsFramed(t, tt, c, e);
        if MovesIntents(c) { MovesProgress(t, tt, c, e); }
      }
    }
  }

  lemma RepeatWritesNothing(t: Tables, tt: Time, c: Command)
    requires Exec(t, tt, c).Ok? && Exec(t, tt, c).value.replayed
    ensures Exec(t, tt, c).value.tables == t
  {
    Outcomes(t, tt, c);
    hide Exec;
  }

  /** Finished work: nothing of it is reserved any more, and its worktrees are archived. */
  ghost predicate ClearedAway(t: Tables, intent: Id)
  {
    && (forall id: Id :: id in t.claims && t.claims[id].intent == intent ==> !t.claims[id].status.ClaimActive?)
    && (forall id: Id :: id in t.worktrees && t.worktrees[id].intent == intent ==> t.worktrees[id].status.Archived?)
  }

  /** Once an intent is completed, cancelled or abandoned, in every later state its row is the same,
      it has no active claim and all its worktrees are archived. */
  lemma {:induction false} FinishedWorkStaysFinished(
    revision: Option<string>, root: Option<Projects.RootInput>, steps: seq<Step>, m: nat, n: nat, intent: Id)
    requires m <= n <= |steps| && Finished(At(revision, root, steps, m), intent)
    ensures Finished(At(revision, root, steps, n), intent)
    ensures At(revision, root, steps, n).intents[intent] == At(revision, root, steps, m).intents[intent]
    ensures ClearedAway(At(revision, root, steps, n), intent)
  {
    hide At, Next, LogSound, PacksPlaced, HandoffsSound, CanonSound, AllComplete, Scopes.NormalScope;
    if m < n {
      FinishedWorkStaysFinished(revision, root, steps, m, n - 1, intent);
      ReachableIsSound(revision, root, steps, n - 1);
      AtStep(revision, root, steps, n - 1);
      StepProgresses(At(revision, root, steps, n - 1), steps[n - 1].tt, steps[n - 1].command);
    }
    ReachableIsSound(revision, root, steps, n);
  }

  /** Completed is entered only from submitted. */
  lemma CompletedOnlyFromSubmitted(revision: Option<string>, root: Option<Projects.RootInput>, steps: seq<Step>, n: nat, intent: Id)
    requires n < |steps| && intent in At(revision, root, steps, n + 1).intents
    requires At(revision, root, steps, n + 1).intents[intent].status.Completed?
    ensures intent in At(revision, root, steps, n).intents
    ensures At(revision, root, steps, n).intents[intent].status.Completed? || At(revision, root, steps, n).intents[intent].status.Submitted?
  {
    hide At, Next, Invariant;
    ReachableIsSound(revision, root, steps, n);
    AtStep(revision, root, steps, n);
    StepProgresses(At(revision, root, steps, n), steps[n].tt, steps[n].command);
  }

  /** Hence the overlap query could do without its filter on the intent's status. */
  lemma TerminalFilterIsRedundant(
    revision: Option<string>, root: Option<Projects.RootInput>, steps: seq<Step>, n: nat, tt: Time, repository: Id, claim: Id)
    requires n <= |steps|
    ensures var t := At(revision, root, steps, n);
      Coordination.Reserving(t, tt, repository, claim) <==>
        && claim in t.claims
        && t.claims[claim].status.ClaimActive?
        && t.claims[claim].expiresAt > tt
        && t.claims[claim].repository == repository
  {
    ReachableIsSound(revision, root, steps, n);
    hide At, LogSound, PacksPlaced, HandoffsSound, CanonSound, AllComplete, Scopes.NormalScope;
  }

  /** An intent has at most one worktree over its whole life. */
  lemma OneWorktreePerIntent(revision: Option<string>, root: Option<Projects.RootInput>, steps: seq<Step>, n: nat, a: Id, b: Id)
    requires n <= |steps| && a in At(revision, root, steps, n).worktrees && b in At(revision, root, steps, n).worktrees
    requires At(revision, root, steps, n).worktrees[a].intent == At(revision, root, steps, n).worktrees[b].intent
    ensures a == b
  {
    ReachableIsSound(revision, root, steps, n);
    hide At, LogSound, PacksPlaced, HandoffsSound, CanonSound, AllComplete, Scopes.NormalScope;
  }

  // ---- Exactly once ----

  lemma StepKeepsRecords(t: Tables, tt: Time, c: Command)
    ensures RecordsStay(t, Next(t, tt, c))
  {
    hide Exec, Fresh;
    if Exec(t, tt, c).Ok? {
      Outcomes(t, tt, c);
      if !Exec(t, tt, c).value.replayed {
        FirstSuccess(t, tt, c, Exec(t, tt, c).value);
      }
    }
  }

  lemma {:induction false} RunKeepsRecords(revision: Option<string>, root: Option<Projects.RootInput>, steps: seq<Step>, m: nat, n: nat)
    requires m <= n <= |steps|
    ensures RecordsStay(At(revision, root, steps, m), At(revision, root, steps, n))
  {
    hide At, Next;
    if m < n {
      RunKeepsRecords(revision, root, steps, m, n - 1);
      AtStep(revision, root, steps, n - 1);
      StepKeepsRecords(At(revision, root, steps, n - 1), steps[n - 1].tt, steps[n - 1].command);
    }
  }

  /** A success leaves its answer behind under its key. */
  lemma SuccessIsRecorded(t: Tables, tt: Time, c: Command)
    requires Exec(t, tt, c).Ok? && KeyOf(c).Some?
    ensures var r := Next(t, tt, c);
      && KeyOf(c).value in r.commands
      && r.commands[KeyOf(c).value].hash == HashOf(c)
      && r.commands[KeyOf(c).value].body == Some(Exec(t, tt, c).value.response)
  {
    hide Exec, Fresh;
    Outcomes(t, tt, c);
    if !Exec(t, tt, c).value.replayed {
      FirstSuccess(t, tt, c, Exec(t, tt, c).value);
    }
  }

  /** A success under a key that has a record is that record's answer, and changes nothing. */
  lemma RetryRepeats(t: Tables, tt: Time, c: Command)
    requires Exec(t, tt, c).Ok? && KeyOf(c).Some? && KeyOf(c).value in t.commands
    ensures Repeats(t, Exec(t, tt, c).value, KeyOf(c).value, HashOf(c)) && Exec(t, tt, c).value.replayed
  {
    hide Exec, Fresh;
    Outcomes(t, tt, c);
    if !Exec(t, tt, c).value.replayed {
      FirstSuccess(t, tt, c, Exec(t, tt, c).value);
    }
  }

  /** Exactly once: after a success under a key, whenever a command of the same type with the same key
      succeeds again it carries the same digest, returns the first stored result and leaves every
      table as it was. */
  lemma ExactlyOnce(revision: Option<string>, root: Option<Projects.RootInput>, steps: seq<Step>, i: nat, j: nat)
    requires i < j < |steps|
    requires KeyOf(steps[i].command).Some? && KeyOf(steps[j].command) == KeyOf(steps[i].command)
    requires Exec(At(revision, root, steps, i), steps[i].tt, steps[i].command).Ok?
    requires Exec(At(revision, root, steps, j), steps[j].tt, steps[j].command).Ok?
    ensures var first := Exec(At(revision, root, steps, i), steps[i].tt, steps[i].command).value;
      var again := Exec(At(revision, root, steps, j), steps[j].tt, steps[j].command).value;
      && HashOf(steps[j].command) == HashOf(steps[i].command)
      && again.replayed
      && again.response == first.response
      && again.tables == At(revision, root, steps, j)
  {
    hide At, Exec, Next;
    SuccessIsRecorded(At(revision, root, steps, i), steps[i].tt, steps[i].command);
    AtStep(revision, root, steps, i);
    RunKeepsRecords(revision, root, steps, i + 1, j);
    RetryRepeats(At(revision, root, steps, j), steps[j].tt, steps[j].command);
  }

  /** No client is ever told that its command is incomplete. */
  lemma CommandIncompleteIsUnreachable(
    revision: Option<string>, root: Option<Projects.RootInput>, steps: seq<Step>, n: nat, tt: Time, c: Command)
    requires n <= |steps|
    ensures Exec(At(revision, root, steps, n), tt, c) != Err(CommandIncomplete)
  {
    ReachableIsSound(revision, root, steps, n);
    NeverIncomplete(At(revision, root, steps, n), tt, c) by { hide Exec, At; }
    hide Exec, At;
  }

  // ---- The log ----

  /** In every reachable state the log is dense and replays to the tables; every aggregate's versions
      strictly increase, and those of intents, handoffs and provider states are 1, 2, ... up to the row's. */
  lemma LogReplaysToTheTables(revision: Option<string>, root: Option<Projects.RootInput>, steps: seq<Step>, n: nat)
    requires n <= |steps|
    ensures var t := At(revision, root, steps, n);
      && Dense(t)
      && ReplayLog(t.events) == Some(Projected(t))
      && Versioned(t)
      && PacksPlaced(t)
      && (forall id: Id :: id in t.intents ==> VersionsOf(t.events, IntentAggregate(id)) == UpTo(t.intents[id].version))
      && (forall id: Id :: id in t.handoffs ==> VersionsOf(t.events, HandoffAggregate(id)) == UpTo(t.handoffs[id].version))
      && (forall id: Id :: id in t.providers ==> VersionsOf(t.events, ProviderAggregate(id)) == UpTo(t.providers[id].version))
  {
    ReachableIsSound(revision, root, steps, n);
    var t := At(revision, root, steps, n);
    hide At, Numbered, WorkSound, HandoffsSound, CanonSound, AllComplete, ReplayLog, Dense, Versioned, PacksPlaced;
    forall id: Id
      ensures id in t.intents ==> VersionsOf(t.events, IntentAggregate(id)) == UpTo(t.intents[id].version)
      ensures id in t.handoffs ==> VersionsOf(t.events, HandoffAggregate(id)) == UpTo(t.handoffs[id].version)
      ensures id in t.providers ==> VersionsOf(t.events, ProviderAggregate(id)) == UpTo(t.providers[id].version)
    {
      ReplayedVersionsAreDense(t.events, id);
    }
  }

  // ---- Handoffs ----

  lemma StepKeepsAnswers(t: Tables, tt: Time, c: Command)
    requires Invariant(t)
    ensures AnswersStay(t, Next(t, tt, c))
  {
    hide Exec, Fresh, WorkSound, LogSound, PacksPlaced, HandoffsSound, CanonSound, AllComplete;
    if Exec(t, tt, c).Ok? {
      Outcomes(t, tt, c);
      if !Exec(t, tt, c).value.replayed {
        HandoffsKept(t, tt, c, Exec(t, tt, c).value);
      }
    }
  }

  /** Accepted, withdrawn and expired are final. */
  lemma {:induction false} AnswersAreFinal(revision: Option<string>, root: Option<Projects.RootInput>, steps: seq<Step>, m: nat, n: nat)
    requires m <= n <= |steps|
    ensures AnswersStay(At(revision, root, steps, m), At(revision, root, steps, n))
  {
    hide At, Next, Invariant;
    if m < n {
      AnswersAreFinal(revision, root, steps, m, n - 1);
      AtStep(revision, root, steps, n - 1);
      ReachableIsSound(revision, root, steps, n - 1);
      StepKeepsAnswers(At(revision, root, steps, n - 1), steps[n - 1].tt, steps[n - 1].command);
    }
  }

  /** In every reachable state an intent has at most one stored open offer, and an accepted handoff
      names an actor other than its offerer and was accepted before its deadline. */
  lemma HandoffProtocolHolds(revision: Option<string>, root: Option<Projects.RootInput>, steps: seq<Step>, n: nat)
    requires n <= |steps|
    ensures var t := At(revision, root, steps, n);
      && (forall a: Id, b: Id :: OpenOffer(t.handoffs, a) && OpenOffer(t.handoffs, b) && t.handoffs[a].intent == t.handoffs[b].intent ==> a == b)
      && (forall id: Id :: id in t.handoffs && t.handoffs[id].status.Accepted? ==>
            && t.handoffs[id].to.Some?
            && t.handoffs[id].to.value != t.handoffs[id].from
            && t.handoffs[id].respondedAt.Some?
            && t.handoffs[id].respondedAt.value < t.handoffs[id].expiresAt)
  {
    ReachableIsSound(revision, root, steps, n);
    hide At, WorkSound, LogSound, PacksPlaced, CanonSound, AllComplete;
  }

  /** A handoff command touches no claim, worktree, session or intent. */
  lemma HandoffsTouchNothingElse(t: Tables, tt: Time, c: Command)
    requires c.OfferHandoff? || c.AnswerHandoff?
    ensures var r := Next(t, tt, c);
      r.claims == t.claims && r.worktrees == t.worktrees && r.sessions == t.sessions && r.intents == t.intents
  {
    hide Exec, Fresh;
    if Exec(t, tt, c).Ok? {
      Outcomes(t, tt, c);
      if !Exec(t, tt, c).value.replayed {
        FreshIsFramed(t, tt, c, Exec(t, tt, c).value);
      }
    }
  }

  // ---- The canonical revision ----

  /** For any mix of syncs, failures and primary switches: if the primary repository's provider state
      is synced, the project shows that state's revision. */
  lemma ProjectFollowsPrimary(revision: Option<string>, root: Option<Projects.RootInput>, steps: seq<Step>, n: nat)
    requires n <= |steps|
    ensures FollowsPrimary(At(revision, root, steps, n))
  {
    ReachableIsSound(revision, root, steps, n);
    hide At, WorkSound, LogSound, PacksPlaced, HandoffsSound, AllComplete;
  }

  /** No two repositories of a project ever share a slug, and no two in use share a GitHub number. */
  lemma RepositoriesStayDistinct(revision: Option<string>, root: Option<Projects.RootInput>, steps: seq<Step>, n: nat)
    requires n <= |steps|
    ensures RepositoriesDistinct(At(revision, root, steps, n).repositories)
  {
    ReachableIsSound(revision, root, steps, n);
    hide At, WorkSound, LogSound, PacksPlaced, HandoffsSound, AllComplete, FollowsPrimary;
  }

  /** In no reachable state does a fresh work.start succeed that asks for one resource in two modes,
      although such a request passes normalisation. */
  lemma TwoModesAreRefused(
    revision: Option<string>, root: Option<Projects.RootInput>, steps: seq<Step>, n: nat, tt: Time, c: Command)
    requires n <= |steps| && c.StartWork? && KeyOf(c).value !in At(revision, root, steps, n).commands
    requires Scopes.NormalizeScopes(c.request.scopes).Ok? && !Coordination.OneModeEach(Scopes.NormalizeScopes(c.request.scopes).value)
    ensures Exec(At(revision, root, steps, n), tt, c).Err?
  {
    ReachableIsSound(revision, root, steps, n);
    hide At, LogSound, PacksPlaced, HandoffsSound, CanonSound, AllComplete, Scopes.NormalScope, Scopes.NormalizeScopes, Coordination.OneModeEach;
    var t := At(revision, root, steps, n);
    StartIsExec(t, tt, c);
    hide Exec;
    Coordination.TwoModesAreRefused(t, tt, c.principal, c.allowAll, c.key, c.hash,
                                    Coordination.WithScopes(c.request, Scopes.NormalizeScopes(c.request.scopes).value));
    hide Coordination.StartEffect;
  }

  lemma StartIsExec(t: Tables, tt: Time, c: Command)
    requires c.StartWork?
    ensures Exec(t, tt, c) == Coordination.StartWorkEffect(t, tt, c.principal, c.allowAll, c.key, c.hash, c.request)
  {
    hide Coordination.StartWorkEffect;
  }
}
