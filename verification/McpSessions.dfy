/**
 Streamable HTTP sessions: issued by `initialize`, required by every POST,
 dropped by DELETE, and pruned lazily when some other request comes by.

 Requests are in the order they take the lock. Ids are never issued twice.
 */
module McpSessions {
  import opened Wrappers

  type Id = string
  type Version = string

  /** In milliseconds. */
  const IDLE_TTL := 60 * 60 * 1000

  datatype Session = Session(version: Version, lastSeen: nat)

  type Sessions = map<Id, Session>

  datatype Reply = Created | BadInitialize | MissingId | InvalidId | Unknown | WrongVersion | Accepted | Deleted

  /** What a request brings. `negotiated` is the version both sides can speak. */
  datatype Request =
    | Initialize(now: nat, newId: Id, negotiated: Option<Version>, header: Option<Version>)
    | Post(now: nat, id: Option<Id>, header: Option<Version>)
    | Delete(id: Option<Id>)

  predicate VisibleAscii(id: Id) {
    id != "" && forall c :: c in id ==> '!' <= c <= '~'
  }

  function IdleFor(now: nat, lastSeen: nat): nat {
    if now >= lastSeen then now - lastSeen else 0
  }

  function Pruned(sessions: Sessions, now: nat): Sessions {
    map id | id in sessions && IdleFor(now, sessions[id].lastSeen) <= IDLE_TTL :: sessions[id]
  }

  /** `handle_streamable_initialize`. */
  function DoInitialize(s: Sessions, r: Request): (Sessions, Reply)
    requires r.Initialize?
  {
    if r.negotiated.None? || (r.header.Some? && r.header != r.negotiated) then (s, BadInitialize)
    else (Pruned(s, r.now)[r.newId := Session(r.negotiated.value, r.now)], Created)
  }

  /** `require_streamable_session`. */
  function DoPost(s: Sessions, r: Request): (Sessions, Reply)
    requires r.Post?
  {
    if r.id.None? then (s, MissingId)
    else if !VisibleAscii(r.id.value) then (s, InvalidId)
    else
      var live := Pruned(s, r.now);
      var id := r.id.value;
      if id !in live then (live, Unknown)
      else if r.header.Some? && r.header.value != live[id].version then (live, WrongVersion)
      else (live[id := live[id].(lastSeen := r.now)], Accepted)
  }

  /** `streamable_delete`; it does not prune. */
  function DoDelete(s: Sessions, r: Request): (Sessions, Reply)
    requires r.Delete?
  {
    if r.id.None? then (s, MissingId)
    else if !VisibleAscii(r.id.value) then (s, InvalidId)
    else if r.id.value !in s then (s, Unknown)
    else (s - {r.id.value}, Deleted)
  }

  function Do(s: Sessions, r: Request): (Sessions, Reply) {
    match r
    case Initialize(_, _, _, _) => DoInitialize(s, r)
    case Post(_, _, _) => DoPost(s, r)
    case Delete(_) => DoDelete(s, r)
  }

  // ---------------------------------------------------------------- the history

  /** A request and its answer, the latest last. */
  datatype Done = Done(request: Request, reply: Reply)

  type History = seq<Done>

  function Run(rs: seq<Request>): (Sessions, History) {
    if rs == [] then (map[], [])
    else
      var n := |rs| - 1;
      var before := Run(rs[..n]);
      var (s, reply) := Do(before.0, rs[n]);
      (s, before.1 + [Done(rs[n], reply)])
  }

  /** When `id` was last issued or accepted, unless it was deleted since. */
  function LastUse(h: History, id: Id): Option<Session> {
    if h == [] then None
    else
      var n := |h| - 1;
      var earlier := LastUse(h[..n], id);
      match h[n].request
      case Initialize(now, newId, v, _) =>
        if h[n].reply == Created && newId == id && v.Some? then Some(Session(v.value, now)) else earlier
      case Post(now, pid, _) =>
        if h[n].reply == Accepted && pid == Some(id) && earlier.Some? then Some(earlier.value.(lastSeen := now))
        else earlier
      case Delete(did) => if did == Some(id) && VisibleAscii(id) then None else earlier
  }

  /** The time of the latest request that pruned. */
  function Clock(h: History): nat {
    if h == [] then 0
    else
      var n := |h| - 1;
      match h[n].request
      case Initialize(now, _, _, _) => if h[n].reply == Created then now else Clock(h[..n])
      case Post(now, _, _) => if h[n].reply in {Unknown, WrongVersion, Accepted} then now else Clock(h[..n])
      case Delete(_) => Clock(h[..n])
  }

  /** Clocks do not run backwards. */
  ghost predicate Orderly(rs: seq<Request>) {
    forall i, j :: 0 <= i < j < |rs| && !rs[i].Delete? && !rs[j].Delete? ==> rs[i].now <= rs[j].now
  }

  /** The table is what the history says, less what a pruning request found idle. */
  ghost predicate Mirrors(s: Sessions, h: History) {
    forall id :: MirrorsOne(s, h, id)
  }

  ghost predicate MirrorsOne(s: Sessions, h: History, id: Id) {
    (id in s <==> LastUse(h, id).Some? && IdleFor(Clock(h), LastUse(h, id).value.lastSeen) <= IDLE_TTL) &&
    (id in s ==> LastUse(h, id) == Some(s[id]))
  }

  /** Nothing in the history is later than `now`. */
  ghost predicate Before(h: History, now: nat) {
    Clock(h) <= now && forall id :: LastUse(h, id).Some? ==> LastUse(h, id).value.lastSeen <= Clock(h)
  }

  lemma DoMirrorsOne(s: Sessions, h: History, r: Request, id: Id)
    requires Mirrors(s, h) && Before(h, if r.Delete? then Clock(h) else r.now)
    ensures MirrorsOne(Do(s, r).0, h + [Done(r, Do(s, r).1)], id)
  {
    var h' := h + [Done(r, Do(s, r).1)];
    assert h'[..|h|] == h && h'[|h|] == Done(r, Do(s, r).1);
    assert MirrorsOne(s, h, id);
    if r.Post? && r.id.Some? { assert MirrorsOne(s, h, r.id.value); }
    hide Mirrors, VisibleAscii;
  }

  lemma DoneBefore(s: Sessions, h: History, r: Request)
    requires Mirrors(s, h) && Before(h, if r.Delete? then Clock(h) else r.now)
    ensures var h' := h + [Done(r, Do(s, r).1)];
            Before(h', Clock(h')) && (Clock(h') == Clock(h) || (!r.Delete? && Clock(h') == r.now))
  {
  }

  /** One request: the table goes on mirroring the history. */
  lemma DoMirrors(s: Sessions, h: History, r: Request)
    requires Mirrors(s, h) && Before(h, if r.Delete? then Clock(h) else r.now)
    ensures var (s', reply) := Do(s, r);
            var h' := h + [Done(r, reply)];
            Mirrors(s', h') && Before(h', Clock(h')) && (Clock(h') == Clock(h) || (!r.Delete? && Clock(h') == r.now))
  {
    DoneBefore(s, h, r);
    hide Do, MirrorsOne;
    forall id ensures MirrorsOne(Do(s, r).0, h + [Done(r, Do(s, r).1)], id) {
      DoMirrorsOne(s, h, r, id);
    }
  }

  lemma {:induction false} ClockIsPast(rs: seq<Request>, now: nat)
    requires forall i :: 0 <= i < |rs| && !rs[i].Delete? ==> rs[i].now <= now
    ensures Clock(Run(rs).1) <= now
  {
    if rs != [] {
      var n := |rs| - 1;
      ClockIsPast(rs[..n], now);
      assert rs[n].Delete? || rs[n].now <= now;
      var h := Run(rs[..n]).1;
      var d := Done(rs[n], Do(Run(rs[..n]).0, rs[n]).1);
      assert (h + [d])[..|h|] == h;
    }
  }

  lemma {:induction false} RunMirrors(rs: seq<Request>)
    requires Orderly(rs)
    ensures Mirrors(Run(rs).0, Run(rs).1) && Before(Run(rs).1, Clock(Run(rs).1))
  {
    hide Mirrors, Do;
    if rs != [] {
      var n := |rs| - 1;
      RunMirrors(rs[..n]);
      if !rs[n].Delete? { ClockIsPast(rs[..n], rs[n].now); }
      DoMirrors(Run(rs[..n]).0, Run(rs[..n]).1, rs[n]);
    } else {
      NothingMirrors();
    }
  }

  lemma NothingMirrors()
    ensures Mirrors(map[], []) && Before([], 0)
  {
  }

  /** What a POST should be answered, going by the history alone: no pruning. */
  function PostAnswer(h: History, r: Request): Reply
    requires r.Post?
  {
    if r.id.None? then MissingId
    else if !VisibleAscii(r.id.value) then InvalidId
    else
      match LastUse(h, r.id.value)
      case None => Unknown
      case Some(session) =>
        if IdleFor(r.now, session.lastSeen) > IDLE_TTL then Unknown
        else if r.header.Some? && r.header.value != session.version then WrongVersion
        else Accepted
  }

  /** A POST gets the answer of the history: accepted exactly when its id was
      issued, not deleted since, last issued or accepted at most one TTL ago,
      and any version header agrees, whatever was pruned in between. */
  lemma PruningIsInvisibleToPost(rs: seq<Request>, r: Request)
    requires r.Post? && Orderly(rs + [r])
    ensures Do(Run(rs).0, r).1 == PostAnswer(Run(rs).1, r)
  {
    var s, h := Run(rs).0, Run(rs).1;
    assert Orderly(rs) by {
      forall i, j | 0 <= i < j < |rs| && !rs[i].Delete? && !rs[j].Delete? ensures rs[i].now <= rs[j].now {
        assert (rs + [r])[i] == rs[i] && (rs + [r])[j] == rs[j];
      }
    }
    RunMirrors(rs);
    forall i | 0 <= i < |rs| && !rs[i].Delete? ensures rs[i].now <= r.now {
      assert (rs + [r])[i] == rs[i] && (rs + [r])[|rs|] == r;
    }
    ClockIsPast(rs, r.now);
    if r.id.Some? {
      var id := r.id.value;
      assert MirrorsOne(s, h, id);
    }
  }

  /** A DELETE does see pruning: it finds its session exactly when no pruning
      request came by more than one TTL after the session's last use. */
  lemma DeleteFindsIff(rs: seq<Request>, id: Id)
    requires Orderly(rs) && VisibleAscii(id)
    ensures var h := Run(rs).1;
            Do(Run(rs).0, Delete(Some(id))).1 == Deleted <==>
            LastUse(h, id).Some? && Clock(h) - LastUse(h, id).value.lastSeen <= IDLE_TTL
  {
    RunMirrors(rs);
    var s, h := Run(rs).0, Run(rs).1;
    assert MirrorsOne(s, h, id);
  }

  /** So somebody else's POST decides what a DELETE is answered. */
  lemma PruningShowsInDelete(mine: Id, other: Id, v: Version, now: nat)
    requires VisibleAscii(mine) && VisibleAscii(other) && mine != other && now > IDLE_TTL
    ensures var issue, post := Initialize(0, mine, Some(v), None), Post(now, Some(other), None);
            Do(Run([issue]).0, Delete(Some(mine))).1 == Deleted &&
            Do(Run([issue, post]).0, Delete(Some(mine))).1 == Unknown
  {
  }

  // --------------------------------------------------------------- the object

  class McpState {
    var sessions: Sessions

    constructor ()
      ensures sessions == map[]
    {
      sessions := map[];
    }

    /** `prune_idle_sessions`: one look at each session. */
    method PruneIdle(now: nat)
      modifies `sessions
      ensures sessions == Pruned(old(sessions), now)
    {
      var ids := sessions.Keys;
      ghost var all := sessions;
      while ids != {}
        invariant ids <= all.Keys
        invariant forall id :: id in sessions <==>
          id in all && (id in ids || IdleFor(now, all[id].lastSeen) <= IDLE_TTL)
        invariant forall id :: id in sessions ==> sessions[id] == all[id]
        decreases |ids|
      {
        var id :| id in ids;
        ids := ids - {id};
        if IdleFor(now, sessions[id].lastSeen) > IDLE_TTL {
          sessions := sessions - {id};
        }
      }
    }

    method HandleInitialize(now: nat, newId: Id, negotiated: Option<Version>, header: Option<Version>)
      returns (reply: Reply)
      modifies `sessions
      ensures (sessions, reply) == Do(old(sessions), Initialize(now, newId, negotiated, header))
    {
      if negotiated.None? {
        return BadInitialize;
      }
      if header.Some? && header.value != negotiated.value {
        return BadInitialize;
      }
      PruneIdle(now);
      sessions := sessions[newId := Session(negotiated.value, now)];
      return Created;
    }

    method RequireSession(now: nat, id: Option<Id>, header: Option<Version>) returns (reply: Reply)
      modifies `sessions
      ensures (sessions, reply) == Do(old(sessions), Post(now, id, header))
    {
      if id.None? {
        return MissingId;
      }
      if !VisibleAscii(id.value) {
        return InvalidId;
      }
      PruneIdle(now);
      if id.value !in sessions {
        return Unknown;
      }
      var session := sessions[id.value];
      if header.Some? && header.value != session.version {
        return WrongVersion;
      }
      sessions := sessions[id.value := session.(lastSeen := now)];
      return Accepted;
    }

    method DeleteSession(id: Option<Id>) returns (reply: Reply)
      modifies `sessions
      ensures (sessions, reply) == Do(old(sessions), Delete(id))
    {
      if id.None? {
        return MissingId;
      }
      if !VisibleAscii(id.value) {
        return InvalidId;
      }
      if id.value !in sessions {
        return Unknown;
      }
      sessions := sessions - {id.value};
      return Deleted;
    }
  }
}
