/** What the log says about single aggregates: dense versions, and where a context pack was taken. */
module History {
  import opened Wrappers
  import opened Scopes
  import opened Tables
  import opened Commands
  import opened Server
  import opened Frames
  import opened Log
  import Coordination
  import ContextPacks

  /** The versions of one aggregate in log order. */
  function VersionsOf(events: seq<Event>, a: Aggregate): seq<nat>
  {
    if events == [] then []
    else
      var before, last := VersionsOf(events[..|events| - 1], a), events[|events| - 1];
      if last.aggregate == a then before + [last.version] else before
  }

  function UpTo(n: nat): seq<nat>
  {
    seq(n, i requires 0 <= i < n => i + 1)
  }

  lemma UpToSnoc(n: nat)
    ensures UpTo(n + 1) == UpTo(n) + [n + 1]
  {
  }

  /** A log that replays at all numbers every intent, handoff and provider state 1, 2, ... without a gap. */
  lemma {:induction false} ReplayedVersionsAreDense(events: seq<Event>, id: Id)
    requires ReplayLog(events).Some?
    ensures VersionsOf(events, IntentAggregate(id)) == UpTo(VersionIn(ReplayLog(events).value.intents, id))
    ensures VersionsOf(events, HandoffAggregate(id)) == UpTo(VersionIn(ReplayLog(events).value.handoffs, id))
    ensures VersionsOf(events, ProviderAggregate(id)) == UpTo(VersionIn(ReplayLog(events).value.providers, id))
  {
    if |events| > 1 {
      var before := events[..|events| - 1];
      ReplayedVersionsAreDense(before, id);
      var p := ReplayLog(before).value;
      UpToSnoc(VersionIn(p.intents, id));
      UpToSnoc(VersionIn(p.handoffs, id));
      UpToSnoc(VersionIn(p.providers, id));
    } else {
      assert VersionsOf(events[..0], IntentAggregate(id)) == [];
    }
  }

  // ---- Context packs ----

  /** A pack's cursor is exactly one below its own event. */
  ghost predicate PacksPlaced(t: Tables)
  {
    forall id: Id :: id in t.packs ==> PackPlaced(t.events, id, t.packs[id].cursor)
  }

  ghost predicate PackPlaced(events: seq<Event>, id: Id, cursor: nat)
  {
    && cursor < |events|
    && events[cursor].sequence == cursor + 1
    && events[cursor].aggregate == PackAggregate(id)
    && events[cursor].payload == ContextCompiled(cursor)
  }

  lemma PacksKept(t: Tables, tt: Time, c: Command, e: Effect)
    requires Fresh(t, tt, c, e) && Dense(t) && PacksPlaced(t)
    ensures PacksPlaced(e.tables)
  {
    FreshIsFramed(t, tt, c, e);
    if c.CompileContext? {
      PackedIsPlaced(t, tt, c.key, c.hash, c.compile, e);
    } else {
      hide Fresh;
    }
  }

  lemma PackedIsPlaced(t: Tables, tt: Time, key: string, hash: Hash, input: ContextPacks.CompileInput, e: Effect)
    requires ContextPacks.Packed(t, tt, key, hash, input, e) && Dense(t) && PacksPlaced(t)
    ensures PacksPlaced(e.tables)
  {
  }
}
