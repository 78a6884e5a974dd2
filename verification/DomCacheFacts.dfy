/**
 What an insertion and a patch leave in the cache, and for how long: the page is
 always the latest push's, the search text stays with the snapshot it belongs to.
 */
module DomCacheFacts {
  import opened Wrappers
  import opened DomCache

  /** Of a background push over an explicit snapshot only the page itself is new; any
      other push replaces the whole entry. Other windows keep theirs. */
  lemma StoreWrites(s: System, t: nat, other: Window)
    requires t < |s.tasks| && s.tasks[t].phase.Numbered?
    ensures
      var given, w, g := s.tasks[t].entry, s.tasks[t].entry.window, s.tasks[t].phase.generation;
      var c := Step(s, Store(t)).cache;
      && w in c && c[w].html == given.html && c[w].textContent == given.textContent && c[w].generation == g
      && c[w].window == w
      && (if w in s.cache && s.cache[w].explicit && !given.explicit
          then SameSnapshot(c[w], s.cache[w]) && c[w].searchText == s.cache[w].searchText &&
               c[w].snapshotId == s.cache[w].snapshotId && c[w].explicit
          else SameSnapshot(c[w], given) && c[w].searchText == given.searchText &&
               c[w].snapshotId == given.snapshotId && c[w].explicit == given.explicit)
      && (other != w ==> (other in c <==> other in s.cache) && (other in c ==> c[other] == s.cache[other]))
      && Step(s, Store(t)).tasks[t].phase == Stored(g)
  {
  }

  /** A patch puts the text and the id into the entry of its own push, and changes
      nothing else; if that entry is gone it changes nothing. */
  lemma PatchWrites(s: System, t: nat)
    requires t < |s.tasks| && s.tasks[t].phase.Stored? && s.tasks[t].patch.Some?
    ensures
      var w, g := s.tasks[t].entry.window, s.tasks[t].phase.generation;
      var r := Step(s, Patch(t));
      if w in s.cache && s.cache[w].generation == g
      then && w in r.cache && r.cache[w].searchText == s.tasks[t].patch.value.0
           && r.cache[w].snapshotId == Some(s.tasks[t].patch.value.1)
           && r.cache[w].(searchText := "", snapshotId := None) == s.cache[w].(searchText := "", snapshotId := None)
           && r.cache - {w} == s.cache - {w}
      else r.cache == s.cache
  {
  }

  /** From a task's own insertion on: its patch lands exactly when nothing was
      inserted for the window since, and then the text and the id are there. */
  lemma PatchShowsIff(s: System, evs: seq<Event>, t: nat, w: Window)
    requires Numbering(s) && t < |s.tasks| && Inserted(s.tasks[t]) && s.tasks[t].entry.window == w
    requires w in s.cache && s.cache[w].generation == s.tasks[t].phase.generation
    requires s.tasks[t].patch.Some? && t < |Exec(s, evs).tasks| && Exec(s, evs).tasks[t].phase.Stored?
    ensures
      var r := Exec(s, evs);
      var p := Step(r, Patch(t));
      if NeverStores(s, evs, w)
      then w in p.cache && p.cache[w].searchText == s.tasks[t].patch.value.0 &&
           p.cache[w].snapshotId == Some(s.tasks[t].patch.value.1)
      else p.cache == r.cache
  {
    PatchLandsIff(s, evs, t, w);
    TaskStays(s, evs, t);
    PatchWrites(Exec(s, evs), t);
  }

  lemma {:induction false} TaskStays(s: System, evs: seq<Event>, t: nat)
    requires t < |s.tasks|
    ensures t < |Exec(s, evs).tasks|
    ensures Exec(s, evs).tasks[t].entry == s.tasks[t].entry && Exec(s, evs).tasks[t].patch == s.tasks[t].patch
    ensures Inserted(s.tasks[t]) ==>
      Inserted(Exec(s, evs).tasks[t]) && Exec(s, evs).tasks[t].phase.generation == s.tasks[t].phase.generation
    decreases evs
  {
    if evs != [] { TaskStays(Step(s, evs[0]), evs[1..], t); }
  }

  // ------------------------------------------------------------- what stays

  /** The push that the entry's number is of has inserted, and has no patch to come. */
  ghost predicate Settled(s: System, w: Window, t: nat)
    requires w in s.cache
  {
    && t < |s.tasks| && Inserted(s.tasks[t]) && s.tasks[t].phase.generation == s.cache[w].generation
    && (s.tasks[t].phase.Stored? ==> s.tasks[t].patch.None?)
  }

  lemma StepKeepsText(s: System, ev: Event, w: Window, t: nat) returns (u: nat)
    requires Numbering(s) && w in s.cache && s.cache[w].explicit && Settled(s, w, t)
    requires !StoresExplicit(s, ev, w)
    ensures var r := Step(s, ev);
            w in r.cache && r.cache[w].explicit && Settled(r, w, u) &&
            r.cache[w].searchText == s.cache[w].searchText && r.cache[w].snapshotId == s.cache[w].snapshotId
  {
    u := if StoresInto(s, ev, w) then ev.t else t;
  }

  /** Once an explicit snapshot has its search text, only another explicit snapshot
      changes the text or the id; background pushes keep both. */
  lemma {:induction false} SearchTextStays(s: System, evs: seq<Event>, w: Window, t: nat)
    requires Numbering(s) && w in s.cache && s.cache[w].explicit && Settled(s, w, t)
    requires NeverStoresExplicit(s, evs, w)
    ensures var r := Exec(s, evs);
            w in r.cache && r.cache[w].searchText == s.cache[w].searchText &&
            r.cache[w].snapshotId == s.cache[w].snapshotId
    decreases evs
  {
    hide Numbering, Step, Settled;
    if evs != [] {
      StepKeepsNumbering(s, evs[0]);
      var u := StepKeepsText(s, evs[0], w, t);
      SearchTextStays(Step(s, evs[0]), evs[1..], w, u);
    }
  }

  /** The last task that inserted for the window. */
  ghost function LastPush(s: System, evs: seq<Event>, w: Window, before: Option<nat>): Option<nat>
    decreases evs
  {
    if evs == [] then before
    else LastPush(Step(s, evs[0]), evs[1..], w, if StoresInto(s, evs[0], w) then Some(evs[0].t) else before)
  }

  ghost predicate Shows(s: System, w: Window, push: Option<nat>) {
    match push
    case None => w !in s.cache
    case Some(t) =>
      && t < |s.tasks| && w in s.cache && Inserted(s.tasks[t])
      && s.cache[w].html == s.tasks[t].entry.html && s.cache[w].textContent == s.tasks[t].entry.textContent
      && s.cache[w].generation == s.tasks[t].phase.generation
  }

  lemma StepShows(s: System, ev: Event, w: Window, push: Option<nat>)
    requires Shows(s, w, push)
    ensures Shows(Step(s, ev), w, if StoresInto(s, ev, w) then Some(ev.t) else push)
  {
  }

  lemma {:induction false} ExecShows(s: System, evs: seq<Event>, w: Window, push: Option<nat>)
    requires Shows(s, w, push)
    ensures Shows(Exec(s, evs), w, LastPush(s, evs, w, push))
    decreases evs
  {
    hide Shows, Step, StoresInto;
    if evs != [] {
      StepShows(s, evs[0], w, push);
      ExecShows(Step(s, evs[0]), evs[1..], w, if StoresInto(s, evs[0], w) then Some(evs[0].t) else push);
    }
  }

  /** In every run the page that a window's entry shows, and its number, are those of
      the push that inserted last; without one there is no entry. */
  lemma LatestPageShows(s: System, evs: seq<Event>, w: Window)
    requires Begins(s)
    ensures Shows(Exec(s, evs), w, LastPush(s, evs, w, None))
  {
    ExecShows(s, evs, w, None);
  }
}
