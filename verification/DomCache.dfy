/**
 The cache of DOM snapshots, one entry per window. Taking a generation number,
 inserting the entry and patching its search text later are separate steps of
 concurrent tasks; only the last two hold the lock.
 */
module DomCache {
  import opened Wrappers

  type Window = string

  datatype Entry = Entry(
    window: Window, html: string, textContent: string,
    snapshot: string, mode: string, refs: map<string, string>, meta: string, timestamp: nat,
    searchText: string, snapshotId: Option<string>, generation: nat, explicit: bool)

  type Cache = map<Window, Entry>

  /** The part of an entry that its `@refs` belong to. */
  predicate SameSnapshot(e: Entry, d: Entry) {
    && e.snapshot == d.snapshot && e.mode == d.mode && e.refs == d.refs && e.meta == d.meta
    && e.timestamp == d.timestamp
  }

  // ------------------------------------------------------------- the sections

  /** The locked part of `push_dom`. */
  function Insert(cache: Cache, entry: Entry): Cache {
    var w := entry.window;
    var kept :=
      if w in cache && cache[w].explicit && !entry.explicit then
        var p := cache[w];
        entry.(snapshot := p.snapshot, mode := p.mode, refs := p.refs, meta := p.meta, timestamp := p.timestamp,
               searchText := p.searchText, snapshotId := p.snapshotId, explicit := true)
      else entry;
    cache[w := kept]
  }

  /** The guarded patch at the end of a split snapshot. */
  function PatchText(cache: Cache, w: Window, generation: nat, text: string, id: string): Cache {
    if w in cache && cache[w].generation == generation then
      cache[w := cache[w].(searchText := text, snapshotId := Some(id))]
    else cache
  }

  // ------------------------------------------------------- tasks and their runs

  /** Where a task is; `generation` is the number it took. */
  datatype Phase = Waiting | Numbered(generation: nat) | Stored(generation: nat) | Patched(generation: nat)

  /** A push: what it brings, and the search text and id it may patch in. */
  datatype Task = Task(entry: Entry, patch: Option<(string, string)>, phase: Phase)

  datatype System = System(tasks: seq<Task>, generation: nat, cache: Cache)

  datatype Event = Number(t: nat) | Store(t: nat) | Patch(t: nat)

  function Step(s: System, ev: Event): System {
    if ev.t >= |s.tasks| then s
    else
      var task := s.tasks[ev.t];
      match ev
      case Number(t) =>
        if !task.phase.Waiting? then s
        else System(s.tasks[t := task.(phase := Numbered(s.generation + 1))], s.generation + 1, s.cache)
      case Store(t) =>
        if !task.phase.Numbered? then s
        else
          var g := task.phase.generation;
          System(s.tasks[t := task.(phase := Stored(g))], s.generation,
                 Insert(s.cache, task.entry.(generation := g)))
      case Patch(t) =>
        if !task.phase.Stored? || task.patch.None? then s
        else
          var g := task.phase.generation;
          System(s.tasks[t := task.(phase := Patched(g))], s.generation,
                 PatchText(s.cache, task.entry.window, g, task.patch.value.0, task.patch.value.1))
  }

  function Exec(s: System, evs: seq<Event>): System
    decreases evs
  {
    if evs == [] then s else Exec(Step(s, evs[0]), evs[1..])
  }

  /** What the two callers bring: no search text or id yet, and a patch only for
      a snapshot that somebody asked for. */
  predicate Honest(task: Task) {
    && task.entry.searchText == "" && task.entry.snapshotId == None
    && (task.patch.Some? ==> task.entry.explicit)
  }

  predicate Begins(s: System) {
    s.cache == map[] && forall t :: 0 <= t < |s.tasks| ==> Honest(s.tasks[t]) && s.tasks[t].phase == Waiting
  }

  predicate Inserted(task: Task) {
    task.phase.Stored? || task.phase.Patched?
  }

  // -------------------------------------------------------------- the invariant

  /** Everything in the entry comes from the one task: its text and id are the
      task's, or not there yet. */
  predicate From(e: Entry, task: Task) {
    && SameSnapshot(e, task.entry) && e.explicit == task.entry.explicit && e.window == task.entry.window
    && ((e.searchText == "" && e.snapshotId == None) ||
        (task.patch.Some? && e.searchText == task.patch.value.0 && e.snapshotId == Some(task.patch.value.1)))
  }

  /** Task `t` is where the entry of its window comes from, and no other task can
      patch that entry. */
  ghost predicate Source(s: System, w: Window, t: nat)
    requires w in s.cache
  {
    && t < |s.tasks| && Inserted(s.tasks[t]) && From(s.cache[w], s.tasks[t]) && s.cache[w].window == w
    && s.cache[w].generation <= s.generation
    && forall u :: 0 <= u < |s.tasks| && u != t && !s.tasks[u].phase.Waiting? &&
                   s.tasks[u].phase.generation == s.cache[w].generation ==>
         !s.tasks[u].entry.explicit && Inserted(s.tasks[u])
  }

  ghost predicate HasSource(s: System, w: Window)
    requires w in s.cache
  {
    exists t :: Source(s, w, t)
  }

  ghost predicate Numbering(s: System) {
    && (forall t :: 0 <= t < |s.tasks| && !s.tasks[t].phase.Waiting? ==> s.tasks[t].phase.generation <= s.generation)
    && (forall t, u :: 0 <= t < u < |s.tasks| && !s.tasks[t].phase.Waiting? && !s.tasks[u].phase.Waiting? ==>
          s.tasks[t].phase.generation != s.tasks[u].phase.generation)
    && (forall t :: 0 <= t < |s.tasks| ==> Honest(s.tasks[t]))
  }

  ghost predicate Inv(s: System) {
    Numbering(s) && forall w :: w in s.cache ==> HasSource(s, w)
  }

  lemma StepKeepsNumbering(s: System, ev: Event)
    requires Numbering(s)
    ensures Numbering(Step(s, ev))
  {
  }

  lemma StepKeepsSource(s: System, ev: Event, w: Window)
    requires Numbering(s) && (w in s.cache ==> HasSource(s, w)) && w in Step(s, ev).cache
    ensures HasSource(Step(s, ev), w)
  {
    var s' := Step(s, ev);
    if w in s.cache {
      var t :| Source(s, w, t);
      if ev.t < |s.tasks| && s != s' && ev.Store? && s.tasks[ev.t].entry.window == w {
        var u := ev.t;
        if s.tasks[u].entry.explicit || !s.cache[w].explicit {
          assert Source(s', w, u);
        } else {
          assert Source(s', w, t);
        }
      } else {
        assert Source(s', w, t);
      }
    } else {
      assert Source(s', w, ev.t);
    }
  }

  lemma StepKeepsInv(s: System, ev: Event)
    requires Inv(s)
    ensures Inv(Step(s, ev))
  {
    StepKeepsNumbering(s, ev);
    hide Numbering, HasSource, Step;
    forall w | w in Step(s, ev).cache ensures HasSource(Step(s, ev), w) {
      StepKeepsSource(s, ev, w);
    }
  }

  lemma {:induction false} ExecKeepsInv(s: System, evs: seq<Event>)
    requires Inv(s)
    ensures Inv(Exec(s, evs))
    decreases evs
  {
    hide Inv, Step;
    if evs != [] {
      StepKeepsInv(s, evs[0]);
      ExecKeepsInv(Step(s, evs[0]), evs[1..]);
    }
  }

  /** In every run, what a window's entry holds is one task's: refs, snapshot,
      mode, metadata and time, and either its search text and id or none yet. */
  lemma SnapshotsNeverMix(s: System, evs: seq<Event>, w: Window)
    requires Begins(s) && w in Exec(s, evs).cache
    ensures exists t :: 0 <= t < |Exec(s, evs).tasks| && From(Exec(s, evs).cache[w], Exec(s, evs).tasks[t])
  {
    assert Inv(s);
    ExecKeepsInv(s, evs);
    assert HasSource(Exec(s, evs), w);
    var t :| Source(Exec(s, evs), w, t);
  }

  // ---------------------------------------------------------- who may change it

  /** The step stores a snapshot somebody asked for, for this window. */
  predicate StoresExplicit(s: System, ev: Event, w: Window) {
    ev.Store? && ev.t < |s.tasks| && s.tasks[ev.t].phase.Numbered? && s.tasks[ev.t].entry.explicit
    && s.tasks[ev.t].entry.window == w
  }

  predicate NeverStoresExplicit(s: System, evs: seq<Event>, w: Window)
    decreases evs
  {
    evs == [] || (!StoresExplicit(s, evs[0], w) && NeverStoresExplicit(Step(s, evs[0]), evs[1..], w))
  }

  /** Once an explicit snapshot is there, only another explicit one changes the
      refs and what goes with them. */
  lemma {:induction false} ExplicitRefsStay(s: System, evs: seq<Event>, w: Window)
    requires w in s.cache && s.cache[w].explicit && NeverStoresExplicit(s, evs, w)
    ensures w in Exec(s, evs).cache && Exec(s, evs).cache[w].explicit
    ensures SameSnapshot(Exec(s, evs).cache[w], s.cache[w])
    decreases evs
  {
    if evs != [] {
      var s' := Step(s, evs[0]);
      assert w in s'.cache && s'.cache[w].explicit && SameSnapshot(s'.cache[w], s.cache[w]);
      ExplicitRefsStay(s', evs[1..], w);
    }
  }

  // ------------------------------------------------------------ when a patch lands

  /** The step inserts into this window. */
  predicate StoresInto(s: System, ev: Event, w: Window) {
    ev.Store? && ev.t < |s.tasks| && s.tasks[ev.t].phase.Numbered? && s.tasks[ev.t].entry.window == w
  }

  predicate NeverStores(s: System, evs: seq<Event>, w: Window)
    decreases evs
  {
    evs == [] || (!StoresInto(s, evs[0], w) && NeverStores(Step(s, evs[0]), evs[1..], w))
  }

  /** Task `t` has numbered `g` and has inserted; nobody else can bring `g` back. */
  ghost predicate Spent(s: System, t: nat, g: nat) {
    t < |s.tasks| && Inserted(s.tasks[t]) && s.tasks[t].phase.generation == g
  }

  lemma StepKeepsSpent(s: System, ev: Event, t: nat, g: nat, w: Window)
    requires Numbering(s) && Spent(s, t, g) && w in s.cache
    ensures Spent(Step(s, ev), t, g) && w in Step(s, ev).cache
    ensures StoresInto(s, ev, w) ==> Step(s, ev).cache[w].generation != g
    ensures !StoresInto(s, ev, w) ==> Step(s, ev).cache[w].generation == s.cache[w].generation
  {
  }

  lemma {:induction false} LostForGood(s: System, evs: seq<Event>, t: nat, g: nat, w: Window)
    requires Numbering(s) && Spent(s, t, g) && w in s.cache && s.cache[w].generation != g
    ensures w in Exec(s, evs).cache && Exec(s, evs).cache[w].generation != g
    decreases evs
  {
    if evs != [] {
      StepKeepsSpent(s, evs[0], t, g, w);
      StepKeepsNumbering(s, evs[0]);
      hide Numbering, Step, Spent, StoresInto;
      LostForGood(Step(s, evs[0]), evs[1..], t, g, w);
    }
  }

  /** A patch finds its entry exactly when nothing was inserted for the window
      since: a background push in between loses it, although the entry still
      shows the same snapshot. */
  lemma {:induction false} PatchLandsIff(s: System, evs: seq<Event>, t: nat, w: Window)
    requires Numbering(s) && t < |s.tasks| && Inserted(s.tasks[t]) && s.tasks[t].entry.window == w
    requires w in s.cache && s.cache[w].generation == s.tasks[t].phase.generation
    ensures w in Exec(s, evs).cache
    ensures Exec(s, evs).cache[w].generation == s.tasks[t].phase.generation <==> NeverStores(s, evs, w)
    decreases evs
  {
    if evs != [] {
      var g := s.tasks[t].phase.generation;
      var s' := Step(s, evs[0]);
      StepKeepsSpent(s, evs[0], t, g, w);
      StepKeepsNumbering(s, evs[0]);
      if StoresInto(s, evs[0], w) {
        LostForGood(s', evs[1..], t, g, w);
      } else {
        assert s'.tasks[t].entry == s.tasks[t].entry;
        PatchLandsIff(s', evs[1..], t, w);
      }
    }
  }

  /** The lost patch, concretely: the entry keeps the snapshot's refs, but stays
      without its search text. */
  lemma BackgroundPushLosesThePatch(asked: Entry, pushed: Entry, text: string, id: string)
    requires asked.explicit && !pushed.explicit && pushed.window == asked.window
    requires asked.searchText == "" && asked.snapshotId == None && text != ""
    ensures var s := System([Task(asked, Some((text, id)), Waiting), Task(pushed, None, Waiting)], 0, map[]);
            var r := Exec(s, [Number(0), Store(0), Number(1), Store(1), Patch(0)]);
            asked.window in r.cache && SameSnapshot(r.cache[asked.window], asked) &&
            r.cache[asked.window].searchText == "" && r.tasks[0].phase == Patched(1)
  {
  }

  // --------------------------------------------------------------- the object

  class PluginState {
    var domGeneration: nat
    var domCache: Cache

    constructor ()
      ensures domGeneration == 0 && domCache == map[]
    {
      domGeneration, domCache := 0, map[];
    }

    /** `push_dom` before the lock. */
    method NextGeneration() returns (generation: nat)
      modifies `domGeneration
      ensures generation == domGeneration == old(domGeneration) + 1
    {
      domGeneration := domGeneration + 1;
      generation := domGeneration;
    }

    /** `push_dom` under the lock. */
    method InsertEntry(given: Entry)
      modifies `domCache
      ensures domCache == Insert(old(domCache), given)
    {
      var entry := given;
      if entry.window in domCache {
        var previous := domCache[entry.window];
        if previous.explicit && !entry.explicit {
          entry := entry.(snapshot := previous.snapshot);
          entry := entry.(mode := previous.mode);
          entry := entry.(refs := previous.refs);
          entry := entry.(meta := previous.meta);
          entry := entry.(timestamp := previous.timestamp);
          entry := entry.(searchText := previous.searchText);
          entry := entry.(snapshotId := previous.snapshotId);
          entry := entry.(explicit := true);
        }
      }
      domCache := domCache[entry.window := entry];
    }

    /** The end of a split snapshot. */
    method PatchEntry(window: Window, generation: nat, text: string, id: string)
      modifies `domCache
      ensures domCache == PatchText(old(domCache), window, generation, text, id)
    {
      if window in domCache && domCache[window].generation == generation {
        var entry := domCache[window];
        entry := entry.(searchText := text);
        entry := entry.(snapshotId := Some(id));
        domCache := domCache[window := entry];
      }
    }
  }
}
