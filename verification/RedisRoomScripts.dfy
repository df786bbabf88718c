/**
 The Lua scripts of the Redis room store, each one atomic step over four keys: the room
 bodies, the index scored by expiry, the orphan-claim hash and its rotating queue.
 */
module RedisRoomScripts {
  import opened Options
  import opened Rooms

  type ClaimToken = nat

  /** What a room key may hold. `Unusable` is a string that is not a complete record of its code;
      the two fields are what a JSON table in it may still say. Equal bodies have equal bytes. */
  datatype Body =
    | Usable(room: Room)
    | Unusable(bytes: nat, joinToken: Option<JoinToken>, expiresAt: Option<int>)
    | WrongType

  datatype Score = Finite(t: int) | Infinite

  /** Claim hash, queue scores and the score of the reserved `!sequence` member. */
  datatype Debts = Debts(tokens: map<Code, ClaimToken>, queue: map<Code, nat>, sequence: nat)

  datatype Store = Store(bodies: map<Code, Body>, index: map<Code, Score>, debts: Debts)

  function ExpiryScore(room: Room): Score {
    if room.expiresAt.None? then Infinite else Finite(room.expiresAt.value)
  }

  predicate AtMost(score: Score, now: int) {
    score.Finite? && score.t <= now
  }

  // ---- Claims ----

  function Rotate(d: Debts, c: Code): Debts {
    d.(sequence := d.sequence + 1, queue := d.queue[c := d.sequence + 1])
  }

  function Stage(d: Debts, c: Code, token: ClaimToken): Debts {
    Rotate(d.(tokens := d.tokens[c := token]), c)
  }

  function Drop(d: Debts, c: Code): Debts {
    d.(tokens := d.tokens - {c}, queue := d.queue - {c})
  }

  /** Claim first, then remove the index member; a remover that lost leaves no trace but the sequence. */
  function RemoveIndexed(st: Store, c: Code, token: ClaimToken): Store {
    if c in st.index then st.(index := st.index - {c}, debts := Stage(st.debts, c, token))
    else st.(debts := st.debts.(sequence := st.debts.sequence + 1))
  }

  // ---- Creating, updating and deleting one room ----

  datatype CreateOutcome = Created | Exists | CreateIndexFailed

  /** `indexable` is false where writing the index raises; the body write is then undone. */
  function Create(st: Store, c: Code, room: Room, indexable: bool): (Store, CreateOutcome) {
    if c in st.bodies then (st, Exists)
    else if !indexable then (st, CreateIndexFailed)
    else (st.(bodies := st.bodies[c := Usable(room)], index := st.index[c := ExpiryScore(room)]), Created)
  }

  datatype CasOutcome = CasOk | CasNotFound | CasConflict | CasIndexFailed | CasRaised

  function Cas(st: Store, c: Code, raw: Room, next: Room, indexable: bool): (Store, CasOutcome) {
    if c !in st.bodies then (st, CasNotFound)
    else if st.bodies[c].WrongType? then (st, CasRaised)
    else if st.bodies[c] != Usable(raw) then (st, CasConflict)
    else if !indexable then (st, CasIndexFailed)
    else (st.(bodies := st.bodies[c := Usable(next)], index := st.index[c := ExpiryScore(next)]), CasOk)
  }

  datatype GuardedDelete = Outcome(outcome: DeleteOutcome) | DeleteRaised

  function BodyToken(b: Body): Option<JoinToken> {
    match b
    case Usable(room) => Some(room.joinToken)
    case Unusable(_, token, _) => token
    case WrongType => None
  }

  function BodyExpiry(b: Body): Option<int> {
    match b
    case Usable(room) => room.expiresAt
    case Unusable(_, _, expiresAt) => expiresAt
    case WrongType => None
  }

  function Without(st: Store, c: Code): Store {
    st.(bodies := st.bodies - {c}, index := st.index - {c})
  }

  function DeleteInstance(st: Store, c: Code, joinToken: JoinToken): (Store, GuardedDelete) {
    if c !in st.bodies then (Without(st, c), Outcome(AlreadyDeleted))
    else if st.bodies[c].WrongType? then (st, DeleteRaised)
    else if BodyToken(st.bodies[c]) != Some(joinToken) then (st, Outcome(Superseded))
    else (Without(st, c), Outcome(Deleted))
  }

  function DeleteExpired(st: Store, c: Code, now: int): (Store, GuardedDelete) {
    if c !in st.bodies then (Without(st, c), Outcome(AlreadyDeleted))
    else if st.bodies[c].WrongType? then (st, DeleteRaised)
    else
      var expiry := BodyExpiry(st.bodies[c]);
      if expiry.None? || expiry.value > now then (st, Outcome(Superseded))
      else (Without(st, c), Outcome(Deleted))
  }

  // ---- Repair scripts ----

  function PruneOne(st: Store, c: Code, token: ClaimToken): Store {
    if c in st.bodies then st else RemoveIndexed(st, c, token)
  }

  function Prune(st: Store, codes: seq<Code>, token: ClaimToken): Store {
    if codes == [] then st
    else PruneOne(Prune(st, codes[..|codes| - 1], token), codes[|codes| - 1], token)
  }

  /** Re-points a member, on condition that the body is still exactly the one the caller read. */
  function ReconcileMember(st: Store, c: Code, raw: Room, score: Score): Store {
    if c in st.bodies && st.bodies[c] == Usable(raw) then st.(index := st.index[c := score]) else st
  }

  /** `raw` is what the caller read: an unusable string, or nothing where the read raised. */
  function Quarantine(st: Store, c: Code, raw: Option<Body>, token: ClaimToken): Store {
    if c !in st.bodies then st
    else if st.bodies[c].WrongType? then RemoveIndexed(st, c, token)
    else if Some(st.bodies[c]) != raw then st
    else RemoveIndexed(st, c, token)
  }

  // ---- The sweep ----

  datatype Orphan = Orphan(code: Code, token: ClaimToken)

  datatype Sweep = Sweep(st: Store, deleted: seq<Code>, orphans: seq<Orphan>)

  /** A code reported twice keeps its place and takes the newer token. */
  function Report(orphans: seq<Orphan>, c: Code, token: ClaimToken): seq<Orphan> {
    if orphans == [] then [Orphan(c, token)]
    else if orphans[0].code == c then [Orphan(c, token)] + orphans[1..]
    else [orphans[0]] + Report(orphans[1..], c, token)
  }

  /** ZRANGE order without `!sequence`. */
  ghost function Ranked(queue: map<Code, nat>): (codes: seq<Code>)
    ensures |codes| == |queue|
    decreases |queue|
  {
    if queue == map[] then []
    else
      var c := First(queue);
      assert (queue - {c}).Keys == queue.Keys - {c};
      [c] + Ranked(queue - {c})
  }

  ghost function First(queue: map<Code, nat>): (c: Code)
    requires queue != map[]
    ensures c in queue && forall d <- queue :: queue[c] <= queue[d]
  {
    var least := Least(queue, queue.Keys);
    var c :| c in queue && forall d <- queue :: queue[c] <= queue[d];
    c
  }

  ghost function Least(queue: map<Code, nat>, codes: set<Code>): (c: Code)
    requires codes != {} && codes <= queue.Keys
    ensures c in codes && forall d <- codes :: queue[c] <= queue[d]
  {
    var c :| c in codes;
    if codes == {c} then c
    else
      var rest := Least(queue, codes - {c});
      if queue[c] <= queue[rest] then c else rest
  }

  predicate Distinct(queue: map<Code, nat>) {
    forall c <- queue, d <- queue :: queue[c] == queue[d] ==> c == d
  }

  lemma RankedFirst(queue: map<Code, nat>, c: Code)
    requires Distinct(queue) && c in queue && forall d <- queue :: queue[c] <= queue[d]
    ensures Ranked(queue) == [c] + Ranked(queue - {c})
  {
    assert queue[First(queue)] == queue[c];
  }

  lemma RankedStep(all: seq<Code>, k: nat, rest: map<Code, nat>, c: Code)
    requires Distinct(rest) && c in rest && forall d <- rest :: rest[c] <= rest[d]
    requires k < |all| && Ranked(rest) == all[k..]
    ensures all[k] == c && Ranked(rest - {c}) == all[k + 1..] && Distinct(rest - {c})
  {
    RankedFirst(rest, c);
    assert all[k..][0] == c && all[k..][1..] == all[k + 1..];
  }

  /** Codes that sort before `!sequence`: it ties with the code rotated last and sorts before it. */
  function BeforeSequence(d: Debts): nat {
    |set c | c in d.queue && d.queue[c] < d.sequence|
  }

  /** How many of the first `limit` members are codes. */
  function Slots(d: Debts, limit: nat): nat {
    var places := if d.sequence > 0 && BeforeSequence(d) < limit then limit - 1 else limit;
    if places <= |d.queue| then places else |d.queue|
  }

  ghost function Batch(d: Debts, limit: nat): seq<Code> {
    Ranked(d.queue)[..Slots(d, limit)]
  }

  function VisitStaged(w: Sweep, c: Code): Sweep {
    var d := w.st.debts;
    if c !in d.tokens then w.(st := w.st.(debts := d.(queue := d.queue - {c})))
    else if c !in w.st.bodies then
      w.(st := w.st.(debts := Rotate(d, c)), orphans := Report(w.orphans, c, d.tokens[c]))
    else if w.st.bodies[c].Usable? then w.(st := w.st.(debts := Drop(d, c)))
    else w.(st := w.st.(debts := Rotate(d, c)))
  }

  function VisitAllStaged(w: Sweep, batch: seq<Code>): Sweep {
    if batch == [] then w
    else VisitStaged(VisitAllStaged(w, batch[..|batch| - 1]), batch[|batch| - 1])
  }

  function VisitCandidate(w: Sweep, c: Code, now: int, token: ClaimToken): Sweep {
    if c !in w.st.bodies then
      w.(st := RemoveIndexed(w.st, c, token),
         orphans := if c in w.st.index then Report(w.orphans, c, token) else w.orphans)
    else
      match w.st.bodies[c]
      case WrongType => w.(st := RemoveIndexed(w.st, c, token))
      case Unusable(_, _, _) => w
      case Usable(room) =>
        if room.expiresAt.None? then w.(st := w.st.(index := w.st.index[c := Infinite]))
        else if room.expiresAt.value <= now then w.(st := Without(w.st, c), deleted := w.deleted + [c])
        else w
  }

  function VisitAllCandidates(w: Sweep, order: seq<Code>, now: int, token: ClaimToken): Sweep {
    if order == [] then w
    else VisitCandidate(VisitAllCandidates(w, order[..|order| - 1], now, token), order[|order| - 1], now, token)
  }

  function Candidates(index: map<Code, Score>, now: int): set<Code> {
    set c | c in index && AtMost(index[c], now)
  }

  /** One run of the sweep; `order` lists the candidates in the order the index returned them. */
  ghost function SweepStore(st: Store, now: int, limit: nat, token: ClaimToken, order: seq<Code>): Sweep {
    VisitAllCandidates(VisitAllStaged(Sweep(st, [], []), Batch(st.debts, limit)), order, now, token)
  }

  function Acknowledge(d: Debts, claims: seq<Orphan>): Debts {
    if claims == [] then d
    else
      var d1 := Acknowledge(d, claims[..|claims| - 1]);
      var last := claims[|claims| - 1];
      if last.code in d1.tokens && d1.tokens[last.code] == last.token then Drop(d1, last.code) else d1
  }

  /** The four room-store keys in one Redis, changed in place by the scripts. */
  class RedisRoomKeys {
    var bodies: map<Code, Body>
    var index: map<Code, Score>
    var tokens: map<Code, ClaimToken>
    var queue: map<Code, nat>
    var sequence: nat

    function View(): Store
      reads this
    {
      Store(bodies, index, Debts(tokens, queue, sequence))
    }

    constructor ()
      ensures View() == Store(map[], map[], Debts(map[], map[], 0))
    {
      bodies, index, tokens, queue, sequence := map[], map[], map[], map[], 0;
    }

    /** The body goes first and is taken back if the index cannot be written. */
    method CreateRoom(c: Code, room: Room, indexable: bool) returns (outcome: CreateOutcome)
      modifies this
      ensures (View(), outcome) == Create(old(View()), c, room, indexable)
    {
      if c in bodies {
        return Exists;
      }
      bodies := bodies[c := Usable(room)];
      if !indexable {
        bodies := bodies - {c};
        assert bodies == old(bodies);
        return CreateIndexFailed;
      }
      index := index[c := ExpiryScore(room)];
      return Created;
    }

    method UpdateRoomCas(c: Code, raw: Room, next: Room, indexable: bool) returns (outcome: CasOutcome)
      modifies this
      ensures (View(), outcome) == Cas(old(View()), c, raw, next, indexable)
    {
      if c !in bodies {
        return CasNotFound;
      }
      if bodies[c].WrongType? {
        return CasRaised;
      }
      if bodies[c] != Usable(raw) {
        return CasConflict;
      }
      bodies := bodies[c := Usable(next)];
      if !indexable {
        bodies := bodies[c := Usable(raw)];
        assert bodies == old(bodies);
        return CasIndexFailed;
      }
      index := index[c := ExpiryScore(next)];
      return CasOk;
    }

    method DeleteRoomInstance(c: Code, joinToken: JoinToken) returns (result: GuardedDelete)
      modifies this
      ensures (View(), result) == DeleteInstance(old(View()), c, joinToken)
    {
      if c !in bodies {
        index := index - {c};
        assert bodies - {c} == bodies;
        return Outcome(AlreadyDeleted);
      }
      if bodies[c].WrongType? {
        return DeleteRaised;
      }
      if BodyToken(bodies[c]) != Some(joinToken) {
        return Outcome(Superseded);
      }
      index := index - {c};
      bodies := bodies - {c};
      return Outcome(Deleted);
    }

    method DeleteExpiredRoom(c: Code, now: int) returns (result: GuardedDelete)
      modifies this
      ensures (View(), result) == DeleteExpired(old(View()), c, now)
    {
      if c !in bodies {
        index := index - {c};
        assert bodies - {c} == bodies;
        return Outcome(AlreadyDeleted);
      }
      if bodies[c].WrongType? {
        return DeleteRaised;
      }
      var expiry := BodyExpiry(bodies[c]);
      if expiry.None? || expiry.value > now {
        return Outcome(Superseded);
      }
      index := index - {c};
      bodies := bodies - {c};
      return Outcome(Deleted);
    }

    method RotateOrphanClaim(c: Code)
      modifies this`queue, this`sequence
      ensures View() == old(View()).(debts := Rotate(old(View()).debts, c))
    {
      sequence := sequence + 1;
      queue := queue[c := sequence];
    }

    method StageOrphanClaim(c: Code, token: ClaimToken)
      modifies this`tokens, this`queue, this`sequence
      ensures View() == old(View()).(debts := Stage(old(View()).debts, c, token))
    {
      tokens := tokens[c := token];
      RotateOrphanClaim(c);
    }

    /** Stages first; if the index member was already gone, puts back the claim it found. */
    method RemoveIndexWithOrphanClaim(c: Code, token: ClaimToken) returns (removed: bool)
      modifies this`index, this`tokens, this`queue, this`sequence
      ensures View() == RemoveIndexed(old(View()), c, token)
      ensures removed == (c in old(index))
    {
      var hadToken, previousToken := c in tokens, if c in tokens then tokens[c] else 0;
      var hadScore, previousScore := c in queue, if c in queue then queue[c] else 0;
      StageOrphanClaim(c, token);
      if c in index {
        index := index - {c};
        return true;
      }
      tokens := if hadToken then tokens[c := previousToken] else tokens - {c};
      queue := if hadScore then queue[c := previousScore] else queue - {c};
      assert tokens == old(tokens) && queue == old(queue);
      return false;
    }

    method PruneOrphanedMembers(codes: seq<Code>, token: ClaimToken) returns (removed: nat)
      modifies this`index, this`tokens, this`queue, this`sequence
      ensures View() == Prune(old(View()), codes, token)
      ensures removed == |old(index)| - |index|
    {
      removed := 0;
      for k := 0 to |codes|
        invariant bodies == old(bodies)
        invariant View() == Prune(old(View()), codes[..k], token)
        invariant removed == |old(index)| - |index|
      {
        assert codes[..k + 1][..k] == codes[..k];
        if codes[k] !in bodies {
          ghost var before := index.Keys;
          var won := RemoveIndexWithOrphanClaim(codes[k], token);
          removed := removed + (if won then 1 else 0);
          assert won ==> index.Keys == before - {codes[k]};
        }
      }
      assert codes[..|codes|] == codes;
    }

    method ReconcileMemberScript(c: Code, raw: Room, score: Score) returns (written: bool)
      modifies this`index
      ensures View() == ReconcileMember(old(View()), c, raw, score)
      ensures written == (c in bodies && bodies[c] == Usable(raw))
    {
      if !(c in bodies && bodies[c] == Usable(raw)) {
        return false;
      }
      index := index[c := score];
      return true;
    }

    method QuarantineMember(c: Code, raw: Option<Body>, token: ClaimToken) returns (removed: bool)
      modifies this`index, this`tokens, this`queue, this`sequence
      ensures View() == Quarantine(old(View()), c, raw, token)
      ensures removed == (c in old(index) && c !in index)
    {
      if c !in bodies {
        return false;
      }
      if !bodies[c].WrongType? && Some(bodies[c]) != raw {
        return false;
      }
      removed := RemoveIndexWithOrphanClaim(c, token);
    }

    /** ZRANGE queue 0 limit-1, without `!sequence`. */
    method ZRangeQueue(limit: nat) returns (codes: seq<Code>)
      requires Distinct(queue)
      ensures codes == Batch(View().debts, limit)
    {
      hide Ranked, Distinct, BeforeSequence;
      codes := [];
      ghost var all := Ranked(queue);
      var rest := queue;
      var slots := Slots(View().debts, limit);
      while |codes| < slots
        invariant |codes| <= slots <= |all|
        invariant Distinct(rest)
        invariant codes == all[..|codes|] && Ranked(rest) == all[|codes|..]
      {
        assert rest.Keys != {};
        ghost var least := Least(rest, rest.Keys);
        var c :| c in rest && forall d <- rest :: rest[c] <= rest[d];
        RankedStep(all, |codes|, rest, c);
        codes := codes + [c];
        rest := rest - {c};
      }
    }

    method VisitStagedClaim(c: Code, ghost deleted: seq<Code>, orphans: seq<Orphan>) returns (reported: seq<Orphan>)
      modifies this`tokens, this`queue, this`sequence
      ensures Sweep(View(), deleted, reported) == VisitStaged(Sweep(old(View()), deleted, orphans), c)
    {
      reported := orphans;
      if c !in tokens {
        queue := queue - {c};
      } else if c !in bodies {
        reported := Report(orphans, c, tokens[c]);
        RotateOrphanClaim(c);
      } else if bodies[c].Usable? {
        tokens := tokens - {c};
        queue := queue - {c};
      } else {
        RotateOrphanClaim(c);
      }
    }

    method VisitSweepCandidate(c: Code, now: int, token: ClaimToken, deleted: seq<Code>, orphans: seq<Orphan>)
      returns (gone: seq<Code>, reported: seq<Orphan>)
      modifies this
      ensures Sweep(View(), gone, reported) == VisitCandidate(Sweep(old(View()), deleted, orphans), c, now, token)
    {
      gone, reported := deleted, orphans;
      if c !in bodies {
        var removed := RemoveIndexWithOrphanClaim(c, token);
        if removed {
          reported := Report(orphans, c, token);
        }
        return;
      }
      match bodies[c] {
        case WrongType =>
          var _ := RemoveIndexWithOrphanClaim(c, token);
        case Unusable(_, _, _) =>
        case Usable(room) =>
          if room.expiresAt.None? {
            index := index[c := Infinite];
          } else if room.expiresAt.value <= now {
            bodies := bodies - {c};
            index := index - {c};
            gone := deleted + [c];
          }
      }
    }

    method DeleteExpiredRooms(now: int, limit: nat, token: ClaimToken)
      returns (deleted: seq<Code>, orphans: seq<Orphan>, ghost order: seq<Code>)
      requires Distinct(queue)
      modifies this
      ensures Lists(order, Candidates(old(index), now))
      ensures Sweep(View(), deleted, orphans) == SweepStore(old(View()), now, limit, token, order)
    {
      hide VisitStaged, VisitCandidate, Ranked, Distinct, Slots;
      deleted, orphans := [], [];
      var candidates := Candidates(index, now);
      var staged := ZRangeQueue(limit);
      for k := 0 to |staged|
        invariant Sweep(View(), deleted, orphans) == VisitAllStaged(Sweep(old(View()), [], []), staged[..k])
      {
        assert staged[..k + 1][..k] == staged[..k];
        orphans := VisitStagedClaim(staged[k], deleted, orphans);
      }
      assert staged[..|staged|] == staged;
      ghost var start := Sweep(View(), deleted, orphans);
      order := [];
      var pending := candidates;
      while pending != {}
        invariant pending <= candidates
        invariant Lists(order, candidates - pending)
        invariant Sweep(View(), deleted, orphans) == VisitAllCandidates(start, order, now, token)
        decreases pending
      {
        var c :| c in pending;
        ListsSnoc(order, candidates - pending, c);
        assert candidates - (pending - {c}) == (candidates - pending) + {c};
        pending := pending - {c};
        assert (order + [c])[..|order|] == order;
        order := order + [c];
        deleted, orphans := VisitSweepCandidate(c, now, token, deleted, orphans);
      }
      assert candidates - pending == candidates;
    }

    method AcknowledgeOrphanedIndexClaims(claims: seq<Orphan>) returns (acknowledged: nat)
      modifies this`tokens, this`queue
      ensures View() == old(View()).(debts := Acknowledge(old(View()).debts, claims))
      ensures acknowledged == |old(tokens)| - |tokens|
    {
      acknowledged := 0;
      for k := 0 to |claims|
        invariant sequence == old(sequence)
        invariant View().debts == Acknowledge(old(View()).debts, claims[..k])
        invariant acknowledged == |old(tokens)| - |tokens|
      {
        assert claims[..k + 1][..k] == claims[..k];
        var claim := claims[k];
        if claim.code in tokens && tokens[claim.code] == claim.token {
          assert (tokens - {claim.code}).Keys == tokens.Keys - {claim.code};
          tokens := tokens - {claim.code};
          queue := queue - {claim.code};
          acknowledged := acknowledged + 1;
        }
      }
      assert claims[..|claims|] == claims;
    }
  }
}
