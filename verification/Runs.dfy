/** Whole runs of the server, from the creation of a project on. */
module Runs {
  import opened Wrappers
  import opened Tables
  import opened Commands
  import opened Server
  import opened Frames
  import opened Work
  import opened Log
  import opened History
  import opened HandoffProtocol
  import opened Canonical
  import opened Idempotency
  import Coordination
  import Handoffs
  import Projects
  import Scopes

  // ---- The invariant ----

  ghost predicate Invariant(t: Tables)
  {
    && Numbered(t)
    && WorkSound(t)
    && LogSound(t)
    && PacksPlaced(t)
    && HandoffsSound(t)
    && CanonSound(t)
    && AllComplete(t)
  }

  lemma CreatedIsSound(revision: Option<string>, root: Option<Projects.RootInput>)
    ensures Invariant(Projects.Created(revision, root))
  {
    hide Projects.Created, LogSound;
    CreatedIsEmpty(revision, root);
    CreatedLogIsSound(revision, root);
    hide ReplayLog;
  }

  lemma CreatedIsEmpty(revision: Option<string>, root: Option<Projects.RootInput>)
    ensures var t := Projects.Created(revision, root);
      && t.sessions == map[] && t.intents == map[] && t.claims == map[] && t.worktrees == map[] && t.handoffs == map[]
      && t.packs == map[] && t.providers == map[] && t.commands == map[]
      && (forall id: Id :: id in t.repositories ==> id < t.nextId && id == 0)
      && (t.project.root.Some? ==> t.project.root.value in t.repositories)
  {
  }

  lemma CreatedLogIsSound(revision: Option<string>, root: Option<Projects.RootInput>)
    ensures LogSound(Projects.Created(revision, root))
  {
    var t := Projects.Created(revision, root);
    assert |t.events| == 1;
    assert ReplayLog(t.events) == Genesis(t.events[0]);
    assert Projected(t) == Projection(t.project.root, Projected(t).revision, map[], map[], map[]);
  }

  lemma StepKeepsInvariant(t: Tables, tt: Time, c: Command)
    requires Invariant(t)
    ensures Invariant(Next(t, tt, c))
  {
    hide Exec, Fresh, Numbered, WorkSound, LogSound, PacksPlaced, HandoffsSound, CanonSound;
    if Exec(t, tt, c).Ok? {
      var e := Exec(t, tt, c).value;
      Outcomes(t, tt, c);
      if !e.replayed {
        NumberedKept(t, tt, c, e);
        WorkKept(t, tt, c, e);
        LogKept(t, tt, c, e);
        assert Dense(t) by { LogIsDense(t); }
        PacksKept(t, tt, c, e);
        HandoffsKept(t, tt, c, e);
        CanonKept(t, tt, c, e);
        FirstSuccess(t, tt, c, e);
      }
    }
  }

  lemma LogIsDense(t: Tables)
    requires LogSound(t)
    ensures Dense(t)
  {
  }

  /** The tables after the first n steps of a run that starts with project.create. */
  function At(revision: Option<string>, root: Option<Projects.RootInput>, steps: seq<Step>, n: nat): Tables
    requires n <= |steps|
  {
    After(Projects.Created(revision, root), steps[..n])
  }

  lemma AtStep(revision: Option<string>, root: Option<Projects.RootInput>, steps: seq<Step>, n: nat)
    requires n < |steps|
    ensures At(revision, root, steps, n + 1) == Next(At(revision, root, steps, n), steps[n].tt, steps[n].command)
  {
    AfterSnoc(Projects.Created(revision, root), steps, n);
  }

  /** Every reachable state satisfies the invariant. */
  lemma {:induction false} ReachableIsSound(revision: Option<string>, root: Option<Projects.RootInput>, steps: seq<Step>, n: nat)
    requires n <= |steps|
    ensures Invariant(At(revision, root, steps, n))
  {
    hide Invariant, Next;
    if n == 0 {
      assert steps[..0] == [];
      CreatedIsSound(revision, root);
    } else {
      ReachableIsSound(revision, root, steps, n - 1);
      AtStep(revision, root, steps, n - 1);
      StepKeepsInvariant(At(revision, root, steps, n - 1), steps[n - 1].tt, steps[n - 1].command);
    }
  }
}
