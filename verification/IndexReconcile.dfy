/**
 The expiry index is exact wherever only the store's own scripts ran, and a reconcile pass makes it exact
 from any starting point without losing a cleanup debt.
 */
module IndexReconcile {
  import opened Options
  import opened Rooms
  import opened RedisRoomScripts
  import opened OrphanClaims
  import InMemoryRoomStore

  /** What the index should say. */
  function ExactIndex(bodies: map<Code, Body>): map<Code, Score> {
    map c | c in bodies && bodies[c].Usable? :: ExpiryScore(bodies[c].room)
  }

  predicate Correct(st: Store, c: Code) {
    if c in st.bodies && st.bodies[c].Usable?
    then c in st.index && st.index[c] == ExpiryScore(st.bodies[c].room)
    else c !in st.index
  }

  lemma ExactMeansAllCorrect(st: Store)
    ensures st.index == ExactIndex(st.bodies) <==> forall c :: Correct(st, c)
  {
    if forall c :: Correct(st, c) {
      forall c
        ensures c in st.index <==> c in ExactIndex(st.bodies)
        ensures c in st.index ==> st.index[c] == ExactIndex(st.bodies)[c]
      {
        assert Correct(st, c);
      }
    }
  }

  // ---- With interference: no repair script makes a correct entry wrong ----

  /** The scripts that repair, as the store calls them: a quarantine carries a body that was judged unusable. */
  predicate IsRepair(e: Script) {
    || e.PruneMembers? || e.RepointMember? || e.SweepRooms? || e.AcknowledgeClaims?
    || (e.QuarantineBody? && (e.seen.Some? ==> !e.seen.value.Usable?))
  }

  lemma {:induction false} PruneKeepsCorrect(st: Store, codes: seq<Code>, token: ClaimToken, c: Code)
    requires Correct(st, c)
    ensures Prune(st, codes, token).bodies == st.bodies
    ensures Correct(Prune(st, codes, token), c)
  {
    if codes != [] {
      PruneKeepsCorrect(st, codes[..|codes| - 1], token, c);
    }
  }

  lemma {:induction false} StagedKeepsStore(w: Sweep, batch: seq<Code>)
    ensures var v := VisitAllStaged(w, batch);
            v.st.bodies == w.st.bodies && v.st.index == w.st.index && v.deleted == w.deleted
  {
    if batch != [] {
      StagedKeepsStore(w, batch[..|batch| - 1]);
      hide Report;
    }
  }

  lemma VisitCandidateKeepsCorrect(w: Sweep, x: Code, now: int, token: ClaimToken, c: Code)
    requires Correct(w.st, c)
    ensures Correct(VisitCandidate(w, x, now, token).st, c)
  {
    hide Report;
  }

  lemma {:induction false} CandidatesKeepCorrect(w: Sweep, order: seq<Code>, now: int, token: ClaimToken, c: Code)
    requires Correct(w.st, c)
    ensures Correct(VisitAllCandidates(w, order, now, token).st, c)
  {
    if order != [] {
      CandidatesKeepCorrect(w, order[..|order| - 1], now, token, c);
      VisitCandidateKeepsCorrect(VisitAllCandidates(w, order[..|order| - 1], now, token), order[|order| - 1], now, token, c);
      hide VisitCandidate;
    }
  }

  lemma RepairNeverBreaksAnEntry(st: Store, e: Script, c: Code)
    requires IsRepair(e) && Correct(st, c)
    ensures Correct(Apply(st, e), c)
  {
    match e {
      case PruneMembers(codes, token) => PruneKeepsCorrect(st, codes, token, c);
      case SweepRooms(now, limit, token, order) =>
        StagedKeepsStore(Sweep(st, [], []), Batch(st.debts, limit));
        CandidatesKeepCorrect(Delivered(st, limit), order, now, token, c);
        hide VisitAllCandidates, VisitAllStaged, Batch;
      case _ =>
    }
  }

  // ---- Without interference: one pass makes the index exact ----

  function Codes(chunks: seq<seq<Code>>): set<Code> {
    set chunk, c | chunk in chunks && c in chunk :: c
  }

  /** What a stretch of the pass may have done. */
  ghost predicate Repairs(st: Store, st': Store) {
    && st'.bodies == st.bodies
    && (forall c :: Correct(st, c) ==> Correct(st', c))
    && (forall c <- st.index :: c in st'.index || c in st'.debts.tokens)
    && st.debts.tokens.Keys <= st'.debts.tokens.Keys
  }

  lemma RepairsTrans(a: Store, b: Store, c: Store)
    requires Repairs(a, b) && Repairs(b, c)
    ensures Repairs(a, c)
  {
  }

  lemma RepointRepairs(st: Store, c: Code, raw: Room)
    ensures Repairs(st, ReconcileMember(st, c, raw, ExpiryScore(raw)))
  {
  }

  lemma QuarantineRepairs(st: Store, c: Code, raw: Option<Body>, token: ClaimToken)
    requires raw.Some? ==> !raw.value.Usable?
    ensures Repairs(st, Quarantine(st, c, raw, token))
  {
  }

  lemma {:induction false} PruneRepairs(st: Store, codes: seq<Code>, token: ClaimToken)
    ensures Repairs(st, Prune(st, codes, token))
    ensures forall c <- codes :: c !in st.bodies ==> c !in Prune(st, codes, token).index
    ensures forall c <- Prune(st, codes, token).index :: c in st.index
  {
    if codes != [] {
      var front, c := codes[..|codes| - 1], codes[|codes| - 1];
      PruneRepairs(st, front, token);
      assert codes == front + [c];
      assert Repairs(Prune(st, front, token), Prune(st, codes, token));
      RepairsTrans(st, Prune(st, front, token), Prune(st, codes, token));
    }
  }

  lemma {:induction false} PruneOfBodiesDoesNothing(st: Store, codes: seq<Code>, token: ClaimToken)
    requires forall c <- codes :: c in st.bodies
    ensures Prune(st, codes, token) == st
  {
    if codes != [] {
      PruneOfBodiesDoesNothing(st, codes[..|codes| - 1], token);
    }
  }

  /** One key as the pass read it; where the read raised there is no body. */
  datatype Loaded = Loaded(code: Code, raw: Option<Body>, score: Option<Score>)

  function Load(st: Store, c: Code): Loaded {
    Loaded(c,
           if c in st.bodies && !st.bodies[c].WrongType? then Some(st.bodies[c]) else None,
           if c in st.index then Some(st.index[c]) else None)
  }

  predicate Readable(l: Loaded) {
    l.raw.Some? && l.raw.value.Usable?
  }

  class RoomIndexReconciler {
    const redis: RedisRoomKeys
    var nextToken: ClaimToken

    constructor (redis: RedisRoomKeys)
      ensures this.redis == redis
    {
      this.redis := redis;
      nextToken := 0;
    }

    method RandomUUID() returns (token: ClaimToken)
      modifies this
      ensures token == old(nextToken) && nextToken == token + 1
    {
      token := nextToken;
      nextToken := nextToken + 1;
    }

    /** Points drifted members at what their body says. */
    method RepointDrifted(loaded: seq<Loaded>)
      requires forall l <- loaded :: l == Load(redis.View(), l.code)
      modifies redis
      ensures Repairs(old(redis.View()), redis.View())
      ensures forall l <- loaded :: Readable(l) ==> Correct(redis.View(), l.code)
      ensures (forall l <- loaded :: Correct(old(redis.View()), l.code)) ==> redis.View() == old(redis.View())
      ensures forall c :: c !in redis.bodies ==> (c in redis.index <==> c in old(redis.index))
    {
      ghost var before := redis.View();
      for k := 0 to |loaded|
        invariant Repairs(before, redis.View())
        invariant forall l <- loaded[..k] :: Readable(l) ==> Correct(redis.View(), l.code)
        invariant (forall l <- loaded :: Correct(before, l.code)) ==> redis.View() == before
        invariant forall c :: c !in redis.bodies ==> (c in redis.index <==> c in before.index)
      {
        var l := loaded[k];
        ghost var st := redis.View();
        assert loaded[..k + 1] == loaded[..k] + [l];
        assert l in loaded;
        if Readable(l) && l.score != Some(ExpiryScore(l.raw.value.room)) {
          var _ := redis.ReconcileMemberScript(l.code, l.raw.value.room, ExpiryScore(l.raw.value.room));
          RepointRepairs(st, l.code, l.raw.value.room);
          RepairsTrans(before, st, redis.View());
        }
      }
      assert loaded[..|loaded|] == loaded;
    }

    /** Takes members with an unreadable body out of the index, each with its claim. */
    method QuarantineUnreadable(loaded: seq<Loaded>, ghost before: Store)
      requires forall l <- loaded :: l == Load(before, l.code)
      requires Repairs(before, redis.View())
      requires forall l <- loaded :: Readable(l) ==> Correct(redis.View(), l.code)
      requires forall l <- loaded :: !Readable(l) && l.score.None? ==> Correct(redis.View(), l.code)
      modifies this, redis
      ensures Repairs(old(redis.View()), redis.View())
      ensures forall l <- loaded :: l.code in redis.bodies ==> Correct(redis.View(), l.code)
      ensures (forall l <- loaded :: Correct(before, l.code)) ==> redis.View() == old(redis.View())
      ensures forall c :: c !in redis.bodies ==> (c in redis.index <==> c in old(redis.index))
    {
      ghost var start := redis.View();
      for k := 0 to |loaded|
        invariant Repairs(start, redis.View())
        invariant forall l <- loaded[..k] :: l.code in redis.bodies ==> Correct(redis.View(), l.code)
        invariant (forall l <- loaded :: Correct(before, l.code)) ==> redis.View() == start
        invariant forall c :: c !in redis.bodies ==> (c in redis.index <==> c in start.index)
      {
        var l := loaded[k];
        ghost var st := redis.View();
        assert loaded[..k + 1] == loaded[..k] + [l];
        assert l in loaded;
        if !Readable(l) && l.score.Some? {
          var token := RandomUUID();
          var _ := redis.QuarantineMember(l.code, l.raw, token);
          QuarantineRepairs(st, l.code, l.raw, token);
          RepairsTrans(start, st, redis.View());
        }
      }
      assert loaded[..|loaded|] == loaded;
    }

    method ReconcileChunk(codes: seq<Code>)
      modifies this, redis
      ensures Repairs(old(redis.View()), redis.View())
      ensures forall c <- codes :: c in redis.bodies ==> Correct(redis.View(), c)
      ensures (forall c <- codes :: Correct(old(redis.View()), c)) ==> redis.View() == old(redis.View())
      ensures forall c :: c !in redis.bodies ==> (c in redis.index <==> c in old(redis.index))
    {
      ghost var before := redis.View();
      var loaded := seq(|codes|, k requires 0 <= k < |codes| reads redis => Load(redis.View(), codes[k]));
      assert forall k | 0 <= k < |codes| :: loaded[k].code == codes[k];
      RepointDrifted(loaded);
      ghost var middle := redis.View();
      QuarantineUnreadable(loaded, before);
      RepairsTrans(before, middle, redis.View());
    }

    /** Walks the room keys; `scan` is what the cursor returned, in chunks, every key at least once. */
    method ReconcileFromRoomBodies(scan: seq<seq<Code>>)
      requires redis.bodies.Keys <= Codes(scan)
      modifies this, redis
      ensures Repairs(old(redis.View()), redis.View())
      ensures forall c <- redis.bodies :: Correct(redis.View(), c)
      ensures (forall c :: Correct(old(redis.View()), c)) ==> redis.View() == old(redis.View())
      ensures forall c :: c !in redis.bodies ==> (c in redis.index <==> c in old(redis.index))
    {
      ghost var before := redis.View();
      for k := 0 to |scan|
        invariant Repairs(before, redis.View())
        invariant forall chunk <- scan[..k], c <- chunk :: c in redis.bodies ==> Correct(redis.View(), c)
        invariant (forall c :: Correct(before, c)) ==> redis.View() == before
        invariant forall c :: c !in redis.bodies ==> (c in redis.index <==> c in before.index)
      {
        ghost var st := redis.View();
        assert scan[..k + 1] == scan[..k] + [scan[k]];
        ReconcileChunk(scan[k]);
        RepairsTrans(before, st, redis.View());
      }
      assert scan[..|scan|] == scan;
    }

    /** Walks the index; `zscan` names every member without a body at least once. */
    method PruneOrphans(zscan: seq<seq<Code>>)
      requires redis.index.Keys - redis.bodies.Keys <= Codes(zscan)
      modifies this, redis
      ensures Repairs(old(redis.View()), redis.View())
      ensures redis.index.Keys <= redis.bodies.Keys
      ensures Codes(zscan) <= redis.bodies.Keys ==> redis.View() == old(redis.View())
    {
      ghost var before := redis.View();
      for k := 0 to |zscan|
        invariant Repairs(before, redis.View())
        invariant redis.index.Keys <= before.index.Keys
        invariant forall chunk <- zscan[..k], c <- chunk :: c !in redis.bodies ==> c !in redis.index
        invariant Codes(zscan) <= before.bodies.Keys ==> redis.View() == before
      {
        ghost var st := redis.View();
        assert zscan[..k + 1] == zscan[..k] + [zscan[k]];
        var token := RandomUUID();
        var _ := redis.PruneOrphanedMembers(zscan[k], token);
        PruneRepairs(st, zscan[k], token);
        RepairsTrans(before, st, redis.View());
        if Codes(zscan) <= before.bodies.Keys {
          assert forall c <- zscan[k] :: c in Codes(zscan);
          PruneOfBodiesDoesNothing(st, zscan[k], token);
        }
      }
      assert zscan[..|zscan|] == zscan;
      assert forall c <- Codes(zscan) :: c !in redis.bodies ==> c !in redis.index;
      assert redis.index.Keys - redis.bodies.Keys <= before.index.Keys - before.bodies.Keys <= Codes(zscan);
    }

    /** From any bodies, index and claims: the index ends exact, the bodies untouched, every member that was
        dropped claimed and no claim lost; and a pass over an exact index writes nothing. */
    method RunReconcile(scan: seq<seq<Code>>, zscan: seq<seq<Code>>)
      requires redis.bodies.Keys <= Codes(scan)
      requires redis.index.Keys - redis.bodies.Keys <= Codes(zscan)
      modifies this, redis
      ensures redis.bodies == old(redis.bodies)
      ensures redis.index == ExactIndex(redis.bodies)
      ensures forall c <- old(redis.index) :: c in redis.index || c in redis.tokens
      ensures old(redis.tokens.Keys) <= redis.tokens.Keys
      ensures old(redis.index) == ExactIndex(redis.bodies) && Codes(zscan) <= old(redis.index.Keys) ==>
                redis.View() == old(redis.View())
    {
      ghost var before := redis.View();
      ExactMeansAllCorrect(before);
      ReconcileFromRoomBodies(scan);
      ghost var middle := redis.View();
      PruneOrphans(zscan);
      RepairsTrans(before, middle, redis.View());
      assert forall c :: Correct(middle, c) ==> Correct(redis.View(), c);
      ExactMeansAllCorrect(redis.View());
    }
  }

  // ---- With only the store's own scripts the index is exact in every state ----

  function RoomsOf(bodies: map<Code, Body>): map<Code, Room> {
    map c | c in bodies && bodies[c].Usable? :: bodies[c].room
  }

  /** Every body is a record of this store, and the index says exactly when each expires. */
  predicate Sound(st: Store) {
    SoundIndex(st.bodies, st.index)
  }

  predicate SoundIndex(bodies: map<Code, Body>, index: map<Code, Score>) {
    (forall c <- bodies :: bodies[c].Usable?) && index == ExactIndex(bodies)
  }

  predicate OwnScript(e: Script) {
    !e.OtherWriter? && (e.QuarantineBody? && e.seen.Some? ==> !e.seen.value.Usable?)
  }

  lemma {:induction false} PruneKeepsBodies(st: Store, codes: seq<Code>, token: ClaimToken)
    requires st.index.Keys <= st.bodies.Keys
    ensures Prune(st, codes, token).bodies == st.bodies && Prune(st, codes, token).index == st.index
  {
    if codes != [] {
      PruneKeepsBodies(st, codes[..|codes| - 1], token);
    }
  }

  lemma SoundCandidates(st: Store, now: int)
    requires Sound(st)
    ensures Candidates(st.index, now) == InMemoryRoomStore.ExpiredCodes(RoomsOf(st.bodies), now)
    ensures forall c <- Candidates(st.index, now) ::
              c in st.bodies && st.bodies[c].room.expiresAt.Some? && st.bodies[c].room.expiresAt.value <= now
  {
  }

  lemma SubtractTwice<V>(m: map<Code, V>, front: seq<Code>, c: Code)
    ensures m - (set x | x in front) - {c} == m - (set x | x in front + [c])
  {
  }

  /** Where the index is exact, every candidate is a room to delete, and nothing else happens to the rooms. */
  lemma {:induction false} CandidatesAreDeleted(w: Sweep, order: seq<Code>, now: int, token: ClaimToken)
    requires forall c <- order :: c in w.st.bodies && w.st.bodies[c].Usable?
                                  && w.st.bodies[c].room.expiresAt.Some? && w.st.bodies[c].room.expiresAt.value <= now
    requires forall i, j :: 0 <= i < j < |order| ==> order[i] != order[j]
    ensures var v := VisitAllCandidates(w, order, now, token);
            && v.deleted == w.deleted + order && v.orphans == w.orphans
            && v.st.bodies == w.st.bodies - (set c | c in order)
            && v.st.index == w.st.index - (set c | c in order)
            && v.st.debts == w.st.debts
  {
    if order != [] {
      var front, c := order[..|order| - 1], order[|order| - 1];
      CandidatesAreDeleted(w, front, now, token);
      assert order == front + [c] && c !in front;
      var v := VisitAllCandidates(w, front, now, token);
      assert VisitCandidate(v, c, now, token) == Sweep(Without(v.st, c), v.deleted + [c], v.orphans);
      hide VisitCandidate;
      SubtractTwice(w.st.bodies, front, c);
      SubtractTwice(w.st.index, front, c);
    } else {
      assert w.st.bodies - (set c | c in order) == w.st.bodies && w.st.index - (set c | c in order) == w.st.index;
    }
  }

  lemma RemovalCommutes(st: Store, gone: set<Code>)
    requires Sound(st)
    ensures RoomsOf(st.bodies - gone) == RoomsOf(st.bodies) - gone
    ensures SoundIndex(st.bodies - gone, st.index - gone)
  {
  }

  /** The sweep deletes exactly the rooms the in-memory sweep would, each reported once. */
  lemma SweepDeletesLikeMemory(st: Store, now: int, limit: nat, token: ClaimToken, order: seq<Code>)
    requires Sound(st) && CanSweep(st, now, limit, order)
    ensures var w := SweepStore(st, now, limit, token, order);
            var doomed := InMemoryRoomStore.ExpiredCodes(RoomsOf(st.bodies), now);
            && Lists(w.deleted, doomed)
            && RoomsOf(w.st.bodies) == RoomsOf(st.bodies) - doomed
            && w.st.bodies == st.bodies - doomed && w.st.index == st.index - doomed
            && Sound(w.st)
  {
    var doomed := Candidates(st.index, now);
    SoundCandidates(st, now);
    StagedKeepsStore(Sweep(st, [], []), Batch(st.debts, limit));
    CandidatesAreDeleted(Delivered(st, limit), order, now, token);
    assert (set c | c in order) == doomed;
    RemovalCommutes(st, doomed);
    var w := SweepStore(st, now, limit, token, order);
    assert w.deleted == order && w.st.bodies == st.bodies - doomed && w.st.index == st.index - doomed;
    hide SoundIndex, RoomsOf, SweepStore, Candidates, Lists, InMemoryRoomStore.ExpiredCodes;
  }

  lemma SoundStep(st: Store, e: Script)
    requires Sound(st) && OwnScript(e)
    ensures Sound(Apply(st, e))
  {
    match e {
      case PruneMembers(codes, token) => PruneKeepsBodies(st, codes, token);
      case SweepRooms(now, limit, token, order) =>
        if CanSweep(st, now, limit, order) {
          SweepDeletesLikeMemory(st, now, limit, token, order);
        }
        hide SweepStore, Sound;
      case _ =>
    }
  }

  lemma {:induction false} ReachableIndexIsExact(st: Store, es: seq<Script>)
    requires Sound(st)
    requires forall e <- es :: OwnScript(e)
    ensures Sound(Run(st, es))
    decreases |es|
  {
    if es != [] {
      assert es[0] in es;
      SoundStep(st, es[0]);
      hide Sound, Apply;
      ReachableIndexIsExact(Apply(st, es[0]), es[1..]);
    }
  }

  // ---- Counting from the index alone ----

  predicate NoKeyword(q: Query) {
    q.keyword.None? || q.keyword.value == ""
  }

  function LiveMembers(index: map<Code, Score>, now: int): set<Code> {
    set c | c in index && !AtMost(index[c], now)
  }

  /** ZCARD, ZCOUNT, or the codes of a range filtered by keyword; no body is read. */
  function CountFromIndex(index: map<Code, Score>, q: Query, lower: Folding, now: int): nat {
    if NoKeyword(q) then
      if q.includeExpired then |index| else |LiveMembers(index, now)|
    else
      var codes := if q.includeExpired then index.Keys else LiveMembers(index, now);
      |set c | c in codes && Includes(lower(c), lower(q.keyword.value))|
  }

  lemma CountNeedsNoBodies(st: Store, q: Query, lower: Folding, now: int)
    requires Sound(st)
    ensures CountFromIndex(st.index, q, lower, now) == |InMemoryRoomStore.MatchingCodes(RoomsOf(st.bodies), q, lower, now)|
  {
    var matching := InMemoryRoomStore.MatchingCodes(RoomsOf(st.bodies), q, lower, now);
    assert st.index.Keys == st.bodies.Keys;
    hide Includes;
    if NoKeyword(q) {
      if q.includeExpired {
        assert matching == st.index.Keys;
      } else {
        assert matching == LiveMembers(st.index, now);
      }
    } else {
      var codes := if q.includeExpired then st.index.Keys else LiveMembers(st.index, now);
      assert matching == set c | c in codes && Includes(lower(c), lower(q.keyword.value));
    }
  }
}
