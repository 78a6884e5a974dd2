/** What a client of the sessions can count on, request after request. */
module McpFacts {
  import opened Wrappers
  import opened McpSessions

  /** An `initialize` opens a session exactly when the two sides have a version in
      common and a version header, if any, says the same one. */
  lemma InitializeOpensIff(s: Sessions, r: Request)
    requires r.Initialize?
    ensures
      var (t, reply) := Do(s, r);
      if r.negotiated.Some? && (r.header == None || r.header == r.negotiated)
      then reply == Created && r.newId in t && t[r.newId] == Session(r.negotiated.value, r.now)
      else reply == BadInitialize && t == s
  {
  }

  lemma OpenedIsLastUse(rs: seq<Request>, r: Request)
    requires r.Initialize? && r.negotiated.Some? && (r.header == None || r.header == r.negotiated)
    ensures LastUse(Run(rs + [r]).1, r.newId) == Some(Session(r.negotiated.value, r.now))
  {
    assert (rs + [r])[..|rs|] == rs && (rs + [r])[|rs|] == r;
    var h := Run(rs).1;
    assert (h + [Done(r, Created)])[..|h|] == h;
  }

  /** The first POST with the new id is accepted for one hour, under the version
      agreed on or without a version header. */
  lemma OpenedSessionAccepts(rs: seq<Request>, r: Request, post: Request)
    requires Orderly(rs + [r] + [post])
    requires r.Initialize? && r.negotiated.Some? && (r.header == None || r.header == r.negotiated)
    requires post.Post? && post.id == Some(r.newId) && VisibleAscii(r.newId)
    requires post.now <= r.now + 3_600_000 && (post.header == None || post.header == r.negotiated)
    ensures Do(Run(rs + [r]).0, post).1 == Accepted
  {
    OpenedIsLastUse(rs, r);
    PruningIsInvisibleToPost(rs + [r], post);
    hide VisibleAscii, Run, LastUse;
  }

  /** After a DELETE that found its session no POST is accepted until the id is
      issued again. */
  lemma DeletedIsGone(rs: seq<Request>, id: Id, post: Request)
    requires VisibleAscii(id) && post.Post? && post.id == Some(id)
    ensures Do(Run(rs + [Delete(Some(id))]).0, post).1 == Unknown
  {
    var d := Delete(Some(id));
    assert (rs + [d])[..|rs|] == rs && (rs + [d])[|rs|] == d;
    hide Pruned;
    var s := Run(rs + [d]).0;
    assert id !in s;
    NotPrunedIn(s, post.now, id);
  }

  lemma NotPrunedIn(s: Sessions, now: nat, id: Id)
    requires id !in s
    ensures id !in Pruned(s, now)
  {
  }

  /** Pruning takes exactly the sessions idle for more than one hour. */
  lemma PrunedIff(s: Sessions, now: nat, id: Id)
    ensures id in Pruned(s, now) <==> id in s && now <= s[id].lastSeen + 3_600_000
    ensures id in Pruned(s, now) ==> Pruned(s, now)[id] == s[id]
  {
  }

  /** A character of an id: from `!` to `~` of ASCII. */
  predicate Visible(c: char) {
    0x21 <= c as int <= 0x7e
  }

  /** Ids that are empty or hold another character are refused, and so are requests
      without one; neither looks at the sessions. */
  lemma BadIdsAreRefused(s: Sessions, r: Request)
    requires !r.Initialize?
    ensures r.id == None ==> Do(s, r) == (s, MissingId)
    ensures r.id.Some? && (r.id.value == "" || exists c :: c in r.id.value && !Visible(c)) ==>
              Do(s, r) == (s, InvalidId)
    ensures r.id.Some? && r.id.value != "" && (forall c :: c in r.id.value ==> Visible(c)) ==>
              Do(s, r).1 !in {MissingId, InvalidId}
  {
    hide Pruned;
  }
}
