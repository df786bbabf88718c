/**
 What each script of the Redis room store answers and leaves, over any bodies at all: complete records, strings that
 are none, and keys of another type.
 */
module ScriptOutcomes {
  import opened Options
  import opened Rooms
  import opened RedisRoomScripts
  import opened OrphanClaims

  // ---- One room ----

  /** Nothing but the body and the index member of this code may have changed. */
  predicate OnlyTouches(st: Store, t: Store, c: Code) {
    t.bodies - {c} == st.bodies - {c} && t.index - {c} == st.index - {c} && t.debts == st.debts
  }

  /** The body is this record, and its member says when it expires. */
  predicate Stored(t: Store, c: Code, room: Room) {
    && c in t.bodies && t.bodies[c] == Usable(room) && c in t.index
    && (room.expiresAt.None? ==> t.index[c] == Infinite)
    && (room.expiresAt.Some? ==> t.index[c] == Finite(room.expiresAt.value))
  }

  predicate Absent(t: Store, c: Code) {
    c !in t.bodies && c !in t.index
  }

  /** A creation writes body and member where the code is free and the index can be written, and else nothing. */
  lemma CreationIsAllOrNothing(st: Store, c: Code, room: Room, indexable: bool)
    ensures var (t, outcome) := Create(st, c, room, indexable);
            && (outcome == Exists <==> c in st.bodies)
            && (outcome == Created <==> c !in st.bodies && indexable)
            && if outcome == Created then OnlyTouches(st, t, c) && Stored(t, c, room) else t == st
  {
  }

  /** An update goes over exactly the record that was read; what else stands there, or stands there no more, is
      answered for what it is, and nothing is written. */
  lemma UpdateIsAllOrNothing(st: Store, c: Code, raw: Room, next: Room, indexable: bool)
    ensures var (t, outcome) := Cas(st, c, raw, next, indexable);
            && (outcome == CasNotFound <==> c !in st.bodies)
            && (outcome == CasRaised <==> c in st.bodies && st.bodies[c].WrongType?)
            && (outcome == CasConflict <==> c in st.bodies && !st.bodies[c].WrongType? && st.bodies[c] != Usable(raw))
            && (outcome == CasOk <==> c in st.bodies && st.bodies[c] == Usable(raw) && indexable)
            && if outcome == CasOk then OnlyTouches(st, t, c) && Stored(t, c, next) else t == st
  {
  }

  /** A deletion takes the body that carries the given join token, complete record or not, and what is left of a room
      without a body; another instance, or a key it cannot read, it leaves alone. */
  lemma DeletionNamesTheInstance(st: Store, c: Code, joinToken: JoinToken)
    ensures var (t, r) := DeleteInstance(st, c, joinToken);
            && (r == Outcome(AlreadyDeleted) <==> c !in st.bodies)
            && (r == DeleteRaised <==> c in st.bodies && st.bodies[c].WrongType?)
            && (r == Outcome(Deleted) <==>
                  && c in st.bodies
                  && (|| (st.bodies[c].Usable? && st.bodies[c].room.joinToken == joinToken)
                      || (st.bodies[c].Unusable? && st.bodies[c].joinToken == Some(joinToken))))
            && if r == Outcome(Deleted) || r == Outcome(AlreadyDeleted) then OnlyTouches(st, t, c) && Absent(t, c) else t == st
  {
  }

  /** The same, where the guard is that the body says a time and that time has come. */
  lemma ExpiryDeletionNeedsADueBody(st: Store, c: Code, now: int)
    ensures var (t, r) := DeleteExpired(st, c, now);
            && (r == Outcome(AlreadyDeleted) <==> c !in st.bodies)
            && (r == DeleteRaised <==> c in st.bodies && st.bodies[c].WrongType?)
            && (r == Outcome(Deleted) <==>
                  && c in st.bodies
                  && exists due | due <= now ::
                       || (st.bodies[c].Usable? && st.bodies[c].room.expiresAt == Some(due))
                       || (st.bodies[c].Unusable? && st.bodies[c].expiresAt == Some(due)))
            && if r == Outcome(Deleted) || r == Outcome(AlreadyDeleted) then OnlyTouches(st, t, c) && Absent(t, c) else t == st
  {
  }

  // ---- Repair ----

  /** Where the member is there, it goes and a claim under this token stands last in the queue; where it is not, claim
      and place are as they were. */
  lemma RemovalIsClaimed(st: Store, c: Code, token: ClaimToken)
    ensures var t := RemoveIndexed(st, c, token); var d, d' := st.debts, t.debts;
            && t.bodies == st.bodies && t.index == st.index - {c} && d'.sequence == d.sequence + 1
            && if c in st.index then d'.tokens == d.tokens[c := token] && d'.queue == d.queue[c := d'.sequence]
               else d'.tokens == d.tokens && d'.queue == d.queue
  {
  }

  /** A prune takes out exactly the given members that have no body, and claims exactly those. */
  lemma {:induction false} PruneTakesTheBodiless(st: Store, codes: seq<Code>, token: ClaimToken)
    ensures var t := Prune(st, codes, token);
            && t.bodies == st.bodies
            && t.index == st.index - (set c | c in codes && c !in st.bodies)
            && t.debts.tokens.Keys == st.debts.tokens.Keys + (set c | c in codes && c in st.index && c !in st.bodies)
            && forall c <- t.debts.tokens ::
                 t.debts.tokens[c] == if c in codes && c in st.index && c !in st.bodies then token else st.debts.tokens[c]
  {
    if codes != [] {
      var front, c := codes[..|codes| - 1], codes[|codes| - 1];
      PruneTakesTheBodiless(st, front, token);
      assert codes == front + [c];
      RemovalIsClaimed(Prune(st, front, token), c, token);
      hide RemoveIndexed;
    }
  }

  /** A repair writes a score only over the record it was taken from; a quarantine takes a member out only under a key
      of another type or the very string that could not be read, claims it, and keeps the body. */
  lemma RepairsAreGuarded(st: Store, c: Code, raw: Room, seen: Option<Body>, token: ClaimToken)
    ensures var t := Apply(st, RepointMember(c, raw));
            if c in st.bodies && st.bodies[c] == Usable(raw) then OnlyTouches(st, t, c) && Stored(t, c, raw) else t == st
    ensures var t := Apply(st, QuarantineBody(c, seen, token));
            && t.bodies == st.bodies
            && if c in st.index && c in st.bodies && (st.bodies[c].WrongType? || seen == Some(st.bodies[c])) then
                 && t.index == st.index - {c} && t.debts.tokens == st.debts.tokens[c := token]
                 && t.debts.queue == st.debts.queue[c := st.debts.sequence + 1]
               else
                 t.index == st.index && t.debts.tokens == st.debts.tokens && t.debts.queue == st.debts.queue
  {
  }

  // ---- The sweep, code by code ----

  function Get<K, V>(m: map<K, V>, k: K): Option<V> {
    if k in m then Some(m[k]) else None
  }

  /** For this code, nothing changed from one point of a sweep to another. */
  ghost predicate SameAt(w: Sweep, v: Sweep, c: Code) {
    && Get(v.st.bodies, c) == Get(w.st.bodies, c) && Get(v.st.index, c) == Get(w.st.index, c)
    && Get(v.st.debts.tokens, c) == Get(w.st.debts.tokens, c)
    && (c in v.deleted <==> c in w.deleted)
    && (forall t :: Orphan(c, t) in v.orphans <==> Orphan(c, t) in w.orphans)
  }

  /** What visiting a due member changes. */
  ghost predicate Visited(w: Sweep, v: Sweep, c: Code, now: int, token: ClaimToken) {
    if c !in w.st.bodies then
      && c !in v.st.bodies && c !in v.st.index && Carries(v.st, c, token)
      && Orphan(c, token) in v.orphans && (c in v.deleted <==> c in w.deleted)
    else
      match w.st.bodies[c]
      case WrongType =>
        && c !in v.st.index && Carries(v.st, c, token)
        && SameAt(w, v.(st := v.st.(index := w.st.index, debts := w.st.debts)), c)
      case Unusable(_, _, _) => SameAt(w, v, c)
      case Usable(room) =>
        if room.expiresAt.None? then
          c in v.st.index && v.st.index[c] == Infinite && SameAt(w, v.(st := v.st.(index := w.st.index)), c)
        else if room.expiresAt.value <= now then
          && Absent(v.st, c) && c in v.deleted
          && SameAt(w, v.(st := v.st.(bodies := w.st.bodies, index := w.st.index), deleted := w.deleted), c)
        else SameAt(w, v, c)
  }

  lemma {:induction false} ReportAt(orphans: seq<Orphan>, c: Code, token: ClaimToken)
    ensures Orphan(c, token) in Report(orphans, c, token)
    ensures forall x, t | x != c :: Orphan(x, t) in Report(orphans, c, token) <==> Orphan(x, t) in orphans
  {
    if orphans != [] {
      assert orphans == [orphans[0]] + orphans[1..];
      ReportAt(orphans[1..], c, token);
    }
  }

  lemma CandidateVisited(w: Sweep, x: Code, now: int, token: ClaimToken, c: Code)
    ensures var v := VisitCandidate(w, x, now, token);
            if c == x then x in w.st.index ==> Visited(w, v, c, now, token) else SameAt(w, v, c)
  {
    ReportAt(w.orphans, x, token);
    hide Report;
  }

  lemma VisitedInPart(w: Sweep, m: Sweep, v: Sweep, c: Code, now: int, token: ClaimToken)
    ensures Visited(w, m, c, now, token) && SameAt(m, v, c) ==> Visited(w, v, c, now, token)
    ensures SameAt(w, m, c) && Visited(m, v, c, now, token) ==> Visited(w, v, c, now, token)
    ensures SameAt(w, m, c) && SameAt(m, v, c) ==> SameAt(w, v, c)
  {
  }

  lemma {:induction false} CandidatesVisited(w: Sweep, order: seq<Code>, now: int, token: ClaimToken, c: Code)
    requires forall x <- order :: x in w.st.index
    requires forall i, j :: 0 <= i < j < |order| ==> order[i] != order[j]
    ensures var v := VisitAllCandidates(w, order, now, token);
            if c in order then Visited(w, v, c, now, token) else SameAt(w, v, c)
  {
    if order != [] {
      hide Visited, SameAt, VisitCandidate;
      var front, x := order[..|order| - 1], order[|order| - 1];
      assert order == front + [x] && x !in front;
      var m := VisitAllCandidates(w, front, now, token);
      CandidatesVisited(w, front, now, token, c);
      CandidateVisited(m, x, now, token, c);
      VisitedInPart(w, m, VisitAllCandidates(w, order, now, token), c, now, token);
      if c == x {
        assert x in m.st.index by { SameMember(w, m, x); }
      }
    } else {
      assert SameAt(w, w, c);
    }
  }

  lemma SameMember(w: Sweep, m: Sweep, c: Code)
    requires SameAt(w, m, c) && c in w.st.index
    ensures c in m.st.index
  {
  }

  /** What delivering a claim changes: a claim of a room in use is dropped, one without a body is reported. */
  ghost predicate Delivery(w: Sweep, v: Sweep, c: Code) {
    && (c in w.st.debts.tokens && c in w.st.bodies && w.st.bodies[c].Usable? ==>
          c !in v.st.debts.tokens && c !in v.st.debts.queue && SameAt(w, v.(st := v.st.(debts := w.st.debts)), c))
    && (c in w.st.debts.tokens && c !in w.st.bodies ==>
          Orphan(c, w.st.debts.tokens[c]) in v.orphans && SameAt(w, v.(orphans := w.orphans), c))
    && (c in w.st.debts.tokens && c in w.st.bodies && !w.st.bodies[c].Usable? ==> SameAt(w, v, c))
    && (c !in w.st.debts.tokens ==> SameAt(w, v, c) && c !in v.st.debts.queue)
  }

  lemma StagedVisited(w: Sweep, x: Code, c: Code)
    ensures if c == x then Delivery(w, VisitStaged(w, x), c)
            else SameAt(w, VisitStaged(w, x), c) && (c in VisitStaged(w, x).st.debts.queue <==> c in w.st.debts.queue)
  {
    if x in w.st.debts.tokens {
      ReportAt(w.orphans, x, w.st.debts.tokens[x]);
    }
    hide Report;
  }

  lemma DeliveryInPart(w: Sweep, m: Sweep, v: Sweep, c: Code)
    ensures Delivery(w, m, c) && SameAt(m, v, c) && (c in v.st.debts.queue <==> c in m.st.debts.queue) ==> Delivery(w, v, c)
    ensures SameAt(w, m, c) && Delivery(m, v, c) ==> Delivery(w, v, c)
  {
  }

  lemma {:induction false} AllStagedVisited(w: Sweep, batch: seq<Code>, c: Code)
    requires forall i, j :: 0 <= i < j < |batch| ==> batch[i] != batch[j]
    ensures var v := VisitAllStaged(w, batch);
            if c in batch then Delivery(w, v, c) else SameAt(w, v, c) && (c in v.st.debts.queue <==> c in w.st.debts.queue)
  {
    if batch != [] {
      hide Delivery, SameAt, VisitStaged;
      var front, x := batch[..|batch| - 1], batch[|batch| - 1];
      assert batch == front + [x] && x !in front;
      var m := VisitAllStaged(w, front);
      AllStagedVisited(w, front, c);
      StagedVisited(m, x, c);
      DeliveryInPart(w, m, VisitAllStaged(w, batch), c);
      VisitedInPart(w, m, VisitAllStaged(w, batch), c, 0, 0);
    } else {
      assert SameAt(w, w, c);
    }
  }

  predicate Due(st: Store, c: Code, now: int) {
    c in st.index && st.index[c].Finite? && st.index[c].t <= now
  }

  /** One sweep, seen from any code. It deletes exactly the complete records that are due by their score and by their
      own expiry. A member that is due loses its place in the index with its room, or where no body or a key of another
      type stands behind it, and is then claimed under the sweep's token; a room that never expires has its score put
      right; everything else in the index stays. A claim in the batch ends where a complete record is back. Reported
      are exactly the codes without a body that are due or have a claim in the batch. */
  lemma SweepCodeByCode(st: Store, now: int, limit: nat, token: ClaimToken, order: seq<Code>, c: Code)
    requires DebtsInv(st.debts) && CanSweep(st, now, limit, order)
    ensures var w := SweepStore(st, now, limit, token, order);
            var body, claim, listed := Get(st.bodies, c), Get(st.debts.tokens, c), c in Batch(st.debts, limit);
            var usable := body.Some? && body.value.Usable?;
            var dies := Due(st, c, now) && usable && body.value.room.expiresAt.Some? && body.value.room.expiresAt.value <= now;
            var orphaned := Due(st, c, now) && (body.None? || body.value.WrongType?);
            && (c in w.deleted <==> dies)
            && Get(w.st.bodies, c) == (if dies then None else body)
            && Get(w.st.index, c) == (if dies || orphaned then None
                                      else if Due(st, c, now) && usable && body.value.room.expiresAt.None? then Some(Infinite)
                                      else Get(st.index, c))
            && Get(w.st.debts.tokens, c) == (if orphaned then Some(token) else if listed && usable then None else claim)
            && ((exists t :: Orphan(c, t) in w.orphans) <==> body.None? && (Due(st, c, now) || (listed && claim.Some?)))
  {
    var start := Sweep(st, [], []);
    var batch := Batch(st.debts, limit);
    BatchIsDistinct(st.debts, limit);
    AllStagedVisited(start, batch, c);
    VisitAllStagedDelivers(start, batch);
    var v := VisitAllStaged(start, batch);
    assert c in order <==> Due(st, c, now);
    assert forall x <- order :: x in v.st.index;
    CandidatesVisited(v, order, now, token, c);
    hide Batch, VisitAllStaged, VisitAllCandidates, DebtsInv, Moves, Lists, Candidates;
    SweepEnds(st, v, SweepStore(st, now, limit, token, order), now, token, c in batch, c in order, c);
  }

  lemma BatchIsDistinct(d: Debts, limit: nat)
    ensures forall i, j :: 0 <= i < j < |Batch(d, limit)| ==> Batch(d, limit)[i] != Batch(d, limit)[j]
  {
    RankedLists(d.queue);
  }

  lemma SweepEnds(st: Store, v: Sweep, w: Sweep, now: int, token: ClaimToken, listed: bool, due: bool, c: Code)
    requires if listed then Delivery(Sweep(st, [], []), v, c) else SameAt(Sweep(st, [], []), v, c)
    requires if due then Visited(v, w, c, now, token) else SameAt(v, w, c)
    ensures var body, claim := Get(st.bodies, c), Get(st.debts.tokens, c);
            var usable := body.Some? && body.value.Usable?;
            var dies := due && usable && body.value.room.expiresAt.Some? && body.value.room.expiresAt.value <= now;
            var orphaned := due && (body.None? || body.value.WrongType?);
            && (c in w.deleted <==> dies)
            && Get(w.st.bodies, c) == (if dies then None else body)
            && Get(w.st.index, c) == (if dies || orphaned then None
                                      else if due && usable && body.value.room.expiresAt.None? then Some(Infinite)
                                      else Get(st.index, c))
            && Get(w.st.debts.tokens, c) == (if orphaned then Some(token) else if listed && usable then None else claim)
            && ((exists t :: Orphan(c, t) in w.orphans) <==> body.None? && (due || (listed && claim.Some?)))
  {
  }
}
