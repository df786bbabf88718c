/**
 Any number of clients running the two-step update (read, then compare-and-set on the exact bytes) beside
 creates, guarded deletes and sweeps: what they see is what the in-memory store would have answered had each
 operation run atomically at the step that decided it. Only where a patch omits `lastActiveAt` do the two stores
 default differently: Redis keeps the time it read, the in-memory store takes the current one.
 */
module RoomStoreRefinement {
  import opened Options
  import opened Rooms
  import opened RedisRoomScripts
  import opened OrphanClaims
  import opened IndexReconcile
  import Memory = InMemoryRoomStore

  type Client = nat

  /** An update whose read passed its guard and whose compare-and-set is on its way. */
  datatype Pending = Pending(code: Code, guard: Guard, patch: Patch, raw: Room, now: int)

  datatype Answer =
    | CreateAnswer(created: bool)
    | UpdateAnswer(result: UpdateResult)
    | DeleteAnswer(outcome: DeleteOutcome)
    | SweepAnswer(deleted: set<Code>)

  datatype Operation =
    | OpCreate(code: Code, joinToken: JoinToken, createdAt: int, owner: Option<string>, name: Option<string>)
    | OpUpdate(code: Code, guard: Guard, patch: Patch, now: int)
    | OpDelete(code: Code, joinToken: JoinToken)
    | OpDeleteExpired(code: Code, now: int)
    | OpSweep(now: int)

  /** The in-memory store, one atomic operation. */
  function Atomic(rooms: Memory.RoomMap, op: Operation): (Memory.RoomMap, Answer) {
    match op
    case OpCreate(c, joinToken, createdAt, owner, name) =>
      if c in rooms then (rooms, CreateAnswer(false))
      else (rooms[c := NewRoom(joinToken, createdAt, owner, name)], CreateAnswer(true))
    case OpUpdate(c, guard, patch, now) =>
      var (next, result) := Memory.Update(rooms, c, guard, patch, now); (next, UpdateAnswer(result))
    case OpDelete(c, joinToken) =>
      var (next, outcome) := Memory.Delete(rooms, c, joinToken); (next, DeleteAnswer(outcome))
    case OpDeleteExpired(c, now) =>
      var (next, outcome) := Memory.DeleteExpired(rooms, c, now); (next, DeleteAnswer(outcome))
    case OpSweep(now) =>
      (rooms - Memory.ExpiredCodes(rooms, now), SweepAnswer(Memory.ExpiredCodes(rooms, now)))
  }

  // ---- The concurrent system over Redis ----

  /** `used` are the join tokens handed out so far; `successes` counts the updates that succeeded per instance. */
  datatype System = System(st: Store, clients: map<Client, Pending>, used: set<JoinToken>, successes: map<JoinToken, nat>)

  datatype Event =
    | DoCreate(code: Code, joinToken: JoinToken, createdAt: int, owner: Option<string>, name: Option<string>, indexable: bool)
    | ReadForUpdate(client: Client, code: Code, guard: Guard, patch: Patch, now: int)
    | LandCas(client: Client, indexable: bool)
    | DoDelete(code: Code, joinToken: JoinToken)
    | DoDeleteExpired(code: Code, now: int)
    | DoSweep(now: int, limit: nat, token: ClaimToken, order: seq<Code>)

  /** What a step did: the operation it decides, if any, and the answer its caller gets. */
  datatype Decision = Undecided | Conflict | Failed | Decided(op: Operation, answer: Answer)

  function BodyOf(st: Store, c: Code): Option<Body> {
    if c in st.bodies then Some(st.bodies[c]) else None
  }

  /** The read half: not found, refused by the guard, or on to the compare-and-set. */
  function ReadStep(s: System, client: Client, c: Code, guard: Guard, patch: Patch, now: int): (System, Decision) {
    if client in s.clients then (s, Undecided)
    else if c !in s.st.bodies then (s, Decided(OpUpdate(c, guard, patch, now), UpdateAnswer(NotFound)))
    else if !s.st.bodies[c].Usable? then (s, Failed)
    else
      var room := s.st.bodies[c].room;
      var refusal := Refusal(room, guard);
      if refusal.Some? then (s, Decided(OpUpdate(c, guard, patch, now), UpdateAnswer(refusal.value)))
      else (s.(clients := s.clients[client := Pending(c, guard, patch, room, now)]), Undecided)
  }

  function CasStep(s: System, client: Client, indexable: bool): (System, Decision) {
    if client !in s.clients then (s, Undecided)
    else
      var p := s.clients[client];
      var next := Merge(p.raw, p.patch);
      var (st, outcome) := Cas(s.st, p.code, p.raw, next, indexable);
      var s1 := s.(st := st, clients := s.clients - {client});
      match outcome
      case CasOk =>
        (s1.(successes := s.successes[p.raw.joinToken := Count(s, p.raw.joinToken) + 1]),
         Decided(OpUpdate(p.code, p.guard, p.patch, p.now), UpdateAnswer(Updated(next))))
      case CasNotFound => (s1, Decided(OpUpdate(p.code, p.guard, p.patch, p.now), UpdateAnswer(NotFound)))
      case CasConflict => (s1, Conflict)
      case CasIndexFailed => (s1, Failed)
      case CasRaised => (s1, Failed)
  }

  function Count(s: System, t: JoinToken): nat {
    if t in s.successes then s.successes[t] else 0
  }

  function CreateStep(s: System, c: Code, t: JoinToken, createdAt: int, owner: Option<string>, name: Option<string>,
                      indexable: bool): (System, Decision) {
    if t in s.used then (s, Undecided)
    else
      var (st, outcome) := Create(s.st, c, NewRoom(t, createdAt, owner, name), indexable);
      var s1 := s.(st := st, used := s.used + {t});
      if outcome == CreateIndexFailed then (s1, Failed)
      else (s1, Decided(OpCreate(c, t, createdAt, owner, name), CreateAnswer(outcome == Created)))
  }

  function DeleteDecision(r: GuardedDelete, op: Operation): Decision {
    if r.Outcome? then Decided(op, DeleteAnswer(r.outcome)) else Failed
  }

  ghost function SweepStep(s: System, now: int, limit: nat, token: ClaimToken, order: seq<Code>): (System, Decision) {
    if !CanSweep(s.st, now, limit, order) then (s, Undecided)
    else
      var w := SweepStore(s.st, now, limit, token, order);
      (s.(st := w.st), Decided(OpSweep(now), SweepAnswer(set c | c in w.deleted)))
  }

  ghost function Apply(s: System, e: Event): (System, Decision) {
    match e
    case DoCreate(c, t, createdAt, owner, name, indexable) => CreateStep(s, c, t, createdAt, owner, name, indexable)
    case ReadForUpdate(client, c, guard, patch, now) => ReadStep(s, client, c, guard, patch, now)
    case LandCas(client, indexable) => CasStep(s, client, indexable)
    case DoDelete(c, t) =>
      var (st, r) := DeleteInstance(s.st, c, t); (s.(st := st), DeleteDecision(r, OpDelete(c, t)))
    case DoDeleteExpired(c, now) =>
      var (st, r) := DeleteExpired(s.st, c, now); (s.(st := st), DeleteDecision(r, OpDeleteExpired(c, now)))
    case DoSweep(now, limit, token, order) => SweepStep(s, now, limit, token, order)
  }

  // ---- Invariant ----

  /** Join tokens are fresh, so each names one body; each body's version is its count of successful updates. */
  predicate TokensInv(bodies: map<Code, Body>, used: set<JoinToken>, successes: map<JoinToken, nat>) {
    && successes.Keys <= used
    && (forall c <- bodies :: bodies[c].Usable? && bodies[c].room.joinToken in used)
    && (forall c <- bodies :: bodies[c].room.version == (if bodies[c].room.joinToken in successes then successes[bodies[c].room.joinToken] else 0))
    && (forall c <- bodies, d <- bodies :: bodies[c].room.joinToken == bodies[d].room.joinToken ==> c == d)
  }

  predicate ClientsInv(clients: map<Client, Pending>, used: set<JoinToken>) {
    forall k <- clients :: Refusal(clients[k].raw, clients[k].guard).None? && clients[k].raw.joinToken in used
  }

  predicate Inv(s: System) {
    && SoundIndex(s.st.bodies, s.st.index)
    && TokensInv(s.st.bodies, s.used, s.successes)
    && ClientsInv(s.clients, s.used)
  }

  lemma SoundPut(bodies: map<Code, Body>, index: map<Code, Score>, c: Code, room: Room)
    requires SoundIndex(bodies, index)
    ensures SoundIndex(bodies[c := Usable(room)], index[c := ExpiryScore(room)])
  {
  }

  lemma TokensBorn(bodies: map<Code, Body>, used: set<JoinToken>, successes: map<JoinToken, nat>, c: Code, room: Room)
    requires TokensInv(bodies, used, successes) && room.joinToken !in used && room.version == 0
    ensures TokensInv(bodies[c := Usable(room)], used + {room.joinToken}, successes)
  {
  }

  lemma TokensAdvance(bodies: map<Code, Body>, used: set<JoinToken>, successes: map<JoinToken, nat>, c: Code, room: Room, next: Room)
    requires TokensInv(bodies, used, successes) && c in bodies && bodies[c] == Usable(room)
    requires next.joinToken == room.joinToken && next.version == room.version + 1
    ensures TokensInv(bodies[c := Usable(next)], used, successes[room.joinToken := next.version])
  {
  }

  lemma CreateKeeps(s: System, c: Code, t: JoinToken, createdAt: int, owner: Option<string>, name: Option<string>, indexable: bool)
    requires Inv(s)
    ensures Inv(CreateStep(s, c, t, createdAt, owner, name, indexable).0)
  {
    if t !in s.used {
      var room := NewRoom(t, createdAt, owner, name);
      SoundPut(s.st.bodies, s.st.index, c, room);
      TokensBorn(s.st.bodies, s.used, s.successes, c, room);
      assert TokensInv(s.st.bodies, s.used + {t}, s.successes);
    }
    hide SoundIndex, TokensInv;
  }

  lemma ReadKeeps(s: System, client: Client, c: Code, guard: Guard, patch: Patch, now: int)
    requires Inv(s)
    ensures Inv(ReadStep(s, client, c, guard, patch, now).0)
  {
    hide SoundIndex;
  }

  lemma CasKeeps(s: System, client: Client, indexable: bool)
    requires Inv(s)
    ensures Inv(CasStep(s, client, indexable).0)
  {
    if client in s.clients {
      var p := s.clients[client];
      if BodyOf(s.st, p.code) == Some(Usable(p.raw)) {
        var next := Merge(p.raw, p.patch);
        SoundPut(s.st.bodies, s.st.index, p.code, next);
        TokensAdvance(s.st.bodies, s.used, s.successes, p.code, p.raw, next);
        assert Count(s, p.raw.joinToken) == p.raw.version;
      }
    }
    hide SoundIndex, TokensInv;
  }

  lemma RemovalKeeps(s: System, gone: set<Code>)
    requires Inv(s)
    ensures SoundIndex(s.st.bodies - gone, s.st.index - gone) && TokensInv(s.st.bodies - gone, s.used, s.successes)
  {
    RemovalCommutes(s.st, gone);
    hide SoundIndex;
  }

  lemma SweepIsRemoval(st: Store, now: int, limit: nat, token: ClaimToken, order: seq<Code>)
    requires Sound(st) && CanSweep(st, now, limit, order)
    ensures var w := SweepStore(st, now, limit, token, order);
            var doomed := Memory.ExpiredCodes(RoomsOf(st.bodies), now);
            && w.st.bodies == st.bodies - doomed && w.st.index == st.index - doomed
            && (set c | c in w.deleted) == doomed
  {
    SweepDeletesLikeMemory(st, now, limit, token, order);
    hide SweepStore, Candidates, SoundIndex, Memory.ExpiredCodes;
  }

  lemma SweepKeeps(s: System, now: int, limit: nat, token: ClaimToken, order: seq<Code>)
    requires Inv(s)
    ensures Inv(SweepStep(s, now, limit, token, order).0)
  {
    if CanSweep(s.st, now, limit, order) {
      SweepIsRemoval(s.st, now, limit, token, order);
      RemovalKeeps(s, Memory.ExpiredCodes(RoomsOf(s.st.bodies), now));
    }
    hide SoundIndex, TokensInv, ClientsInv, SweepStore;
  }

  lemma InvStep(s: System, e: Event)
    requires Inv(s)
    ensures Inv(Apply(s, e).0)
  {
    match e {
      case DoCreate(c, t, createdAt, owner, name, indexable) => CreateKeeps(s, c, t, createdAt, owner, name, indexable);
      case ReadForUpdate(client, c, guard, patch, now) => ReadKeeps(s, client, c, guard, patch, now);
      case LandCas(client, indexable) => CasKeeps(s, client, indexable);
      case DoDelete(c, _) => RemovalKeeps(s, {c});
      case DoDeleteExpired(c, _) => RemovalKeeps(s, {c});
      case DoSweep(now, limit, token, order) => SweepKeeps(s, now, limit, token, order);
    }
    hide CreateStep, ReadStep, CasStep, SweepStep, SoundIndex, TokensInv, ClientsInv;
  }

  // ---- Refinement ----

  /** The same operation, asked to keep the last-active time where its patch omits one. */
  function Keeping(rooms: Memory.RoomMap, op: Operation): Operation {
    match op
    case OpUpdate(c, guard, patch, now) =>
      if c in rooms then OpUpdate(c, guard, patch.(lastActiveAt := Some(Or(patch.lastActiveAt, rooms[c].lastActiveAt))), now) else op
    case _ => op
  }

  /** A decided step does to the rooms, and answers, exactly what the atomic store does and answers at that step on
      the keeping operation; any other step leaves the rooms alone. */
  predicate Refines(bodies: map<Code, Body>, bodies': map<Code, Body>, d: Decision) {
    if d.Decided? then (RoomsOf(bodies'), d.answer) == Atomic(RoomsOf(bodies), Keeping(RoomsOf(bodies), d.op))
    else bodies' == bodies
  }

  lemma PutRooms(bodies: map<Code, Body>, c: Code, room: Room)
    ensures RoomsOf(bodies[c := Usable(room)]) == RoomsOf(bodies)[c := room]
    ensures c in bodies && bodies[c].Usable? ==> c in RoomsOf(bodies) && RoomsOf(bodies)[c] == bodies[c].room
  {
  }

  lemma CasRefines(s: System, client: Client, indexable: bool)
    requires Inv(s)
    ensures Refines(s.st.bodies, CasStep(s, client, indexable).0.st.bodies, CasStep(s, client, indexable).1)
  {
    hide SoundIndex;
    if client in s.clients {
      var p := s.clients[client];
      PutRooms(s.st.bodies, p.code, Merge(p.raw, p.patch));
    }
    hide TokensInv;
  }

  lemma CreateRefines(s: System, c: Code, t: JoinToken, createdAt: int, owner: Option<string>, name: Option<string>, indexable: bool)
    requires Inv(s)
    ensures var (s', d) := CreateStep(s, c, t, createdAt, owner, name, indexable); Refines(s.st.bodies, s'.st.bodies, d)
  {
    hide SoundIndex;
    PutRooms(s.st.bodies, c, NewRoom(t, createdAt, owner, name));
  }

  lemma ReadRefines(s: System, client: Client, c: Code, guard: Guard, patch: Patch, now: int)
    requires Inv(s)
    ensures var (s', d) := ReadStep(s, client, c, guard, patch, now); Refines(s.st.bodies, s'.st.bodies, d)
  {
    hide SoundIndex, Merge;
  }

  lemma RemovedRooms(bodies: map<Code, Body>, gone: set<Code>)
    ensures RoomsOf(bodies - gone) == RoomsOf(bodies) - gone
  {
  }

  lemma DeleteRefines(s: System, c: Code, t: JoinToken)
    requires Inv(s)
    ensures var (st, r) := DeleteInstance(s.st, c, t); Refines(s.st.bodies, st.bodies, DeleteDecision(r, OpDelete(c, t)))
  {
    hide SoundIndex;
    RemovedRooms(s.st.bodies, {c});
    assert c !in s.st.bodies ==> s.st.bodies - {c} == s.st.bodies;
  }

  lemma DeleteExpiredRefines(s: System, c: Code, now: int)
    requires Inv(s)
    ensures var (st, r) := DeleteExpired(s.st, c, now); Refines(s.st.bodies, st.bodies, DeleteDecision(r, OpDeleteExpired(c, now)))
  {
    hide SoundIndex;
    RemovedRooms(s.st.bodies, {c});
    assert c !in s.st.bodies ==> s.st.bodies - {c} == s.st.bodies;
  }

  lemma SweepRefines(s: System, now: int, limit: nat, token: ClaimToken, order: seq<Code>)
    requires Inv(s)
    ensures var (s', d) := SweepStep(s, now, limit, token, order); Refines(s.st.bodies, s'.st.bodies, d)
  {
    hide SweepStore, CanSweep, SoundIndex, TokensInv, ClientsInv, RoomsOf, Memory.ExpiredCodes;
    if CanSweep(s.st, now, limit, order) {
      SweepIsRemoval(s.st, now, limit, token, order);
      RemovedRooms(s.st.bodies, Memory.ExpiredCodes(RoomsOf(s.st.bodies), now));
    }
  }

  lemma StepRefines(s: System, e: Event)
    requires Inv(s)
    ensures Refines(s.st.bodies, Apply(s, e).0.st.bodies, Apply(s, e).1)
  {
    hide Refines, CreateStep, ReadStep, CasStep, SweepStep;
    match e {
      case DoCreate(c, t, createdAt, owner, name, indexable) => CreateRefines(s, c, t, createdAt, owner, name, indexable);
      case ReadForUpdate(client, c, guard, patch, now) => ReadRefines(s, client, c, guard, patch, now);
      case LandCas(client, indexable) => CasRefines(s, client, indexable);
      case DoDelete(c, t) => DeleteRefines(s, c, t);
      case DoDeleteExpired(c, now) => DeleteExpiredRefines(s, c, now);
      case DoSweep(now, limit, token, order) => SweepRefines(s, now, limit, token, order);
    }
  }

  ghost function Run(s: System, es: seq<Event>): System
    decreases |es|
  {
    if es == [] then s else Run(Apply(s, es[0]).0, es[1..])
  }

  /** The operations the run decided, in the order of the steps that decided them, and their answers. */
  ghost function Operations(s: System, es: seq<Event>): seq<Operation>
    decreases |es|
  {
    if es == [] then []
    else
      var (s1, d) := Apply(s, es[0]);
      (if d.Decided? then [d.op] else []) + Operations(s1, es[1..])
  }

  ghost function Answers(s: System, es: seq<Event>): seq<Answer>
    decreases |es|
  {
    if es == [] then []
    else
      var (s1, d) := Apply(s, es[0]);
      (if d.Decided? then [d.answer] else []) + Answers(s1, es[1..])
  }

  /** The in-memory store runs the operations one after another, each as it is or each keeping. */
  function Executed(rooms: Memory.RoomMap, op: Operation, keeping: bool): (Memory.RoomMap, Answer) {
    Atomic(rooms, if keeping then Keeping(rooms, op) else op)
  }

  function AtomicRun(rooms: Memory.RoomMap, ops: seq<Operation>, keeping: bool): Memory.RoomMap
    decreases |ops|
  {
    if ops == [] then rooms else AtomicRun(Executed(rooms, ops[0], keeping).0, ops[1..], keeping)
  }

  function AtomicAnswers(rooms: Memory.RoomMap, ops: seq<Operation>, keeping: bool): (answers: seq<Answer>)
    ensures |answers| == |ops|
    decreases |ops|
  {
    if ops == [] then []
    else
      var (next, answer) := Executed(rooms, ops[0], keeping);
      [answer] + AtomicAnswers(next, ops[1..], keeping)
  }

  lemma {:induction false} RunRefines(s: System, es: seq<Event>)
    requires Inv(s)
    ensures var rooms := RoomsOf(s.st.bodies);
            && RoomsOf(Run(s, es).st.bodies) == AtomicRun(rooms, Operations(s, es), true)
            && Answers(s, es) == AtomicAnswers(rooms, Operations(s, es), true)
    decreases |es|
  {
    if es != [] {
      var (t, d) := Apply(s, es[0]);
      InvStep(s, es[0]);
      StepRefines(s, es[0]);
      hide Inv, Apply, Atomic, Keeping, RoomsOf;
      RunRefines(t, es[1..]);
      if d.Decided? {
        assert ([d.op] + Operations(t, es[1..]))[1..] == Operations(t, es[1..]);
      } else {
        assert [] + Operations(t, es[1..]) == Operations(t, es[1..]);
        assert [] + Answers(t, es[1..]) == Answers(t, es[1..]);
      }
    }
  }

  // ---- What the default of `lastActiveAt` changes, and what it does not ----

  function Forget(room: Room): Room {
    room.(lastActiveAt := 0)
  }

  function ForgetRooms(rooms: Memory.RoomMap): Memory.RoomMap {
    map c | c in rooms :: Forget(rooms[c])
  }

  function ForgetAnswer(a: Answer): Answer {
    if a.UpdateAnswer? && a.result.Updated? then UpdateAnswer(Updated(Forget(a.result.room))) else a
  }

  /** The two stores agree on everything but `lastActiveAt`. */
  predicate Agree(rooms: Memory.RoomMap, other: Memory.RoomMap) {
    ForgetRooms(rooms) == ForgetRooms(other)
  }

  lemma AgreeAt(a: Memory.RoomMap, b: Memory.RoomMap)
    requires Agree(a, b)
    ensures a.Keys == b.Keys && forall c <- a :: Forget(a[c]) == Forget(b[c])
  {
    assert a.Keys == ForgetRooms(a).Keys == ForgetRooms(b).Keys == b.Keys;
    assert forall c <- a :: ForgetRooms(a)[c] == ForgetRooms(b)[c];
  }

  /** What agreeing means: the same codes, and records that are equal once given the same last-active time. */
  lemma AgreeIff(a: Memory.RoomMap, b: Memory.RoomMap)
    ensures Agree(a, b) <==> a.Keys == b.Keys && forall c <- a :: a[c].(lastActiveAt := b[c].lastActiveAt) == b[c]
  {
    if Agree(a, b) {
      AgreeAt(a, b);
      forall c <- a
        ensures a[c].(lastActiveAt := b[c].lastActiveAt) == b[c]
      {
        assert Forget(a[c]) == Forget(b[c]);
      }
    }
  }

  lemma ExpiryIsShared(a: Memory.RoomMap, b: Memory.RoomMap, now: int)
    requires Agree(a, b)
    ensures Memory.ExpiredCodes(a, now) == Memory.ExpiredCodes(b, now)
  {
    AgreeAt(a, b);
    assert forall c <- a :: Expired(a[c], now) == Expired(Forget(a[c]), now) == Expired(b[c], now);
  }

  lemma PutRespectsAgree(a: Memory.RoomMap, b: Memory.RoomMap, c: Code, x: Room, y: Room)
    requires Agree(a, b) && Forget(x) == Forget(y)
    ensures Agree(a[c := x], b[c := y])
  {
    AgreeAt(a, b);
  }

  lemma RemovalRespectsAgree(a: Memory.RoomMap, b: Memory.RoomMap, gone: set<Code>)
    requires Agree(a, b)
    ensures Agree(a - gone, b - gone)
  {
    AgreeAt(a, b);
  }

  /** Two updates that differ in `lastActiveAt` at most, on rooms that do. */
  lemma UpdateRespectsAgree(a: Memory.RoomMap, b: Memory.RoomMap, c: Code, guard: Guard, patch: Patch, other: Patch, now: int)
    requires Agree(a, b) && other == patch.(lastActiveAt := other.lastActiveAt)
    ensures var (a', x) := Memory.Update(a, c, guard, other, now); var (b', y) := Memory.Update(b, c, guard, patch, now);
            Agree(a', b') && ForgetAnswer(UpdateAnswer(x)) == ForgetAnswer(UpdateAnswer(y))
  {
    AgreeAt(a, b);
    hide Agree;
    if c in a {
      var x := Merge(a[c], other).(lastActiveAt := Or(other.lastActiveAt, now));
      var y := Merge(b[c], patch).(lastActiveAt := Or(patch.lastActiveAt, now));
      PutRespectsAgree(a, b, c, x, y);
    }
  }

  /** The atomic store tells neither rooms that agree nor the keeping operation apart. */
  lemma AtomicRespectsAgree(a: Memory.RoomMap, b: Memory.RoomMap, op: Operation)
    requires Agree(a, b)
    ensures Agree(Executed(a, op, true).0, Executed(b, op, false).0)
    ensures ForgetAnswer(Executed(a, op, true).1) == ForgetAnswer(Executed(b, op, false).1)
  {
    AgreeAt(a, b);
    hide Agree, Memory.ExpiredCodes, Memory.Update;
    match op {
      case OpCreate(c, joinToken, createdAt, owner, name) =>
        var room := NewRoom(joinToken, createdAt, owner, name);
        PutRespectsAgree(a, b, c, room, room);
      case OpUpdate(c, guard, patch, now) => UpdateRespectsAgree(a, b, c, guard, patch, Keeping(a, op).patch, now);
      case OpDelete(c, _) => RemovalRespectsAgree(a, b, {c});
      case OpDeleteExpired(c, now) =>
        assert c in a ==> Expired(Forget(a[c]), now) == Expired(a[c], now) && Expired(Forget(b[c]), now) == Expired(b[c], now);
        RemovalRespectsAgree(a, b, {c});
      case OpSweep(now) =>
        ExpiryIsShared(a, b, now);
        RemovalRespectsAgree(a, b, Memory.ExpiredCodes(a, now));
    }
  }

  lemma {:induction false} KeepingRunAgrees(a: Memory.RoomMap, b: Memory.RoomMap, ops: seq<Operation>)
    requires Agree(a, b)
    ensures Agree(AtomicRun(a, ops, true), AtomicRun(b, ops, false))
    ensures forall k | 0 <= k < |ops| :: ForgetAnswer(AtomicAnswers(a, ops, true)[k]) == ForgetAnswer(AtomicAnswers(b, ops, false)[k])
    decreases |ops|
  {
    if ops != [] {
      AtomicRespectsAgree(a, b, ops[0]);
      hide Agree, Executed, ForgetAnswer;
      KeepingRunAgrees(Executed(a, ops[0], true).0, Executed(b, ops[0], false).0, ops[1..]);
    }
  }

  /** No update leaves the last-active time to the store. */
  predicate NamesLastActive(ops: seq<Operation>) {
    forall op <- ops :: op.OpUpdate? ==> op.patch.lastActiveAt.Some?
  }

  lemma {:induction false} NamedRunsAreEqual(rooms: Memory.RoomMap, ops: seq<Operation>)
    requires NamesLastActive(ops)
    ensures AtomicRun(rooms, ops, true) == AtomicRun(rooms, ops, false)
    ensures AtomicAnswers(rooms, ops, true) == AtomicAnswers(rooms, ops, false)
    decreases |ops|
  {
    if ops != [] {
      assert ops[0] in ops;
      assert Keeping(rooms, ops[0]) == ops[0];
      hide Keeping, Atomic;
      NamedRunsAreEqual(Executed(rooms, ops[0], true).0, ops[1..]);
    }
  }

  /** No room yet, no client on its way. */
  predicate Initial(s: System) {
    s.st.bodies == map[] && s.st.index == map[] && s.clients == map[] && s.successes == map[]
  }

  /** Every run over Redis answers, and leaves, exactly what the in-memory store answers and leaves when it runs the
      decided operations one after another, each update keeping the last-active time it does not name: no successful
      update is lost. */
  lemma RedisRefinesMemory(s: System, es: seq<Event>)
    requires Initial(s)
    ensures RoomsOf(Run(s, es).st.bodies) == AtomicRun(map[], Operations(s, es), true)
    ensures Answers(s, es) == AtomicAnswers(map[], Operations(s, es), true)
  {
    RunRefines(s, es);
  }

  /** Against the in-memory store's own default, rooms and answers still agree but for `lastActiveAt`, and entirely
      where every update names it. */
  lemma RedisAgreesWithMemory(s: System, es: seq<Event>)
    requires Initial(s)
    ensures var ops := Operations(s, es);
            && Agree(RoomsOf(Run(s, es).st.bodies), AtomicRun(map[], ops, false))
            && |Answers(s, es)| == |ops|
            && (forall k | 0 <= k < |ops| :: ForgetAnswer(Answers(s, es)[k]) == ForgetAnswer(AtomicAnswers(map[], ops, false)[k]))
            && (NamesLastActive(ops) ==>
                  RoomsOf(Run(s, es).st.bodies) == AtomicRun(map[], ops, false) && Answers(s, es) == AtomicAnswers(map[], ops, false))
  {
    RedisRefinesMemory(s, es);
    var ops := Operations(s, es);
    hide Run, Operations, Answers, AtomicRun, AtomicAnswers, RoomsOf, Agree, ForgetAnswer;
    AgreesWithItself(map[]);
    KeepingRunAgrees(map[], map[], ops);
    if NamesLastActive(ops) {
      NamedRunsAreEqual(map[], ops);
    }
  }

  lemma AgreesWithItself(rooms: Memory.RoomMap)
    ensures Agree(rooms, rooms)
  {
  }

  lemma {:induction false} InvRun(s: System, es: seq<Event>)
    requires Inv(s)
    ensures Inv(Run(s, es))
    decreases |es|
  {
    if es != [] {
      InvStep(s, es[0]);
      hide Inv, Apply;
      InvRun(Apply(s, es[0]).0, es[1..]);
    }
  }

  /** A room's version is the number of updates that succeeded on that instance. */
  lemma VersionCountsSuccesses(s: System, es: seq<Event>, c: Code)
    requires Initial(s)
    ensures var t := Run(s, es);
            c in t.st.bodies ==> t.st.bodies[c].Usable? && t.st.bodies[c].room.version == Count(t, t.st.bodies[c].room.joinToken)
  {
    InvRun(s, es);
  }

  predicate Succeeded(d: Decision) {
    d.Decided? && d.answer.UpdateAnswer? && d.answer.result.Updated?
  }

  // ---- When an operation is decided ----

  /** A read answers at once or leaves its client with exactly what it read and was asked. A creation fails only where
      the index cannot be written; a deletion or a sweep is always decided. */
  lemma OperationsAreDecided(s: System, e: Event)
    requires Inv(s)
    ensures var (s', d) := Apply(s, e);
            match e
            case DoCreate(c, t, createdAt, owner, name, indexable) =>
              t !in s.used ==> if c !in s.st.bodies && !indexable then d == Failed
                               else d == Decided(OpCreate(c, t, createdAt, owner, name), CreateAnswer(c !in s.st.bodies))
            case ReadForUpdate(client, c, guard, patch, now) =>
              client !in s.clients ==>
                var op := OpUpdate(c, guard, patch, now);
                && (d == Undecided <==> Memory.Update(RoomsOf(s.st.bodies), c, guard, patch, now).1.Updated?)
                && (d == Undecided ==> s'.clients == s.clients[client := Pending(c, guard, patch, s.st.bodies[c].room, now)])
                && (d != Undecided ==> d.Decided? && d.op == op && s'.clients == s.clients)
            case LandCas(client, _) =>
              client in s.clients ==>
                var p := s.clients[client];
                && s'.clients == s.clients - {client}
                && (d.Decided? ==> d.op == OpUpdate(p.code, p.guard, p.patch, p.now))
                && (d == Conflict <==> p.code in s.st.bodies && s.st.bodies[p.code] != Usable(p.raw))
            case DoDelete(c, t) => d.Decided? && d.op == OpDelete(c, t)
            case DoDeleteExpired(c, now) => d.Decided? && d.op == OpDeleteExpired(c, now)
            case DoSweep(now, limit, _, order) =>
              limit >= 1 && Lists(order, Memory.ExpiredCodes(RoomsOf(s.st.bodies), now)) ==> d.Decided? && d.op == OpSweep(now)
  {
    hide SoundIndex, Merge, SweepStore, RoomsOf, Refusal;
    match e {
      case ReadForUpdate(_, c, guard, patch, now) =>
        PutRooms(s.st.bodies, c, NewRoom(0, 0, None, None));
        if c in s.st.bodies { UpdatedIff(s.st.bodies, c, guard, patch, now); } else { AbsentRoom(s.st.bodies, c); }
      case DoSweep(now, _, _, _) => SoundCandidates(s.st, now);
      case _ =>
    }
  }

  /** A read changes nothing in the store. A body that is no complete record fails it; none at all is not found. */
  lemma UnusableBodyFailsTheRead(s: System, client: Client, c: Code, guard: Guard, patch: Patch, now: int)
    requires client !in s.clients
    ensures var (s', d) := Apply(s, ReadForUpdate(client, c, guard, patch, now));
            && s'.st == s.st
            && (d == Failed <==> c in s.st.bodies && !s.st.bodies[c].Usable?)
            && (c !in s.st.bodies ==> d == Decided(OpUpdate(c, guard, patch, now), UpdateAnswer(NotFound)))
  {
    hide Refusal;
  }

  lemma AbsentRoom(bodies: map<Code, Body>, c: Code)
    requires c !in bodies
    ensures c !in RoomsOf(bodies)
  {
  }

  // ---- What a room holds ----

  lemma {:induction false} RunSnoc(s: System, es: seq<Event>, e: Event)
    ensures Run(s, es + [e]) == Apply(Run(s, es), e).0
    decreases |es|
  {
    if es == [] {
      assert [e][1..] == [] && [] + [e] == [e];
    } else {
      assert (es + [e])[1..] == es[1..] + [e] && (es + [e])[0] == es[0];
      hide Apply;
      RunSnoc(Apply(s, es[0]).0, es[1..], e);
    }
  }

  /** The patch of a step that updated the instance. */
  ghost function PatchOf(s: System, e: Event, t: JoinToken): seq<Patch> {
    var d := Apply(s, e).1;
    if Succeeded(d) && d.answer.result.room.joinToken == t && d.op.OpUpdate? then [d.op.patch] else []
  }

  /** The patches of the updates that succeeded on one instance, in the order they landed. */
  ghost function PatchesOf(s: System, es: seq<Event>, t: JoinToken): seq<Patch>
    decreases |es|
  {
    if es == [] then []
    else
      var front := es[..|es| - 1];
      PatchesOf(s, front, t) + PatchOf(Run(s, front), es[|es| - 1], t)
  }

  /** `value` is what the last patch that names the field wrote, or the initial value where none names it. */
  predicate LastWritten<T(==)>(patches: seq<Patch>, field: Patch -> Option<T>, initial: T, value: T) {
    || (value == initial && forall k | 0 <= k < |patches| :: field(patches[k]).None?)
    || (exists k | 0 <= k < |patches| ::
          field(patches[k]) == Some(value) && forall j | k < j < |patches| :: field(patches[j]).None?)
  }

  /** The room is the one created by `e`, with these patches applied. */
  predicate Holds(r: Room, e: Event, patches: seq<Patch>)
    requires e.DoCreate?
  {
    && r.joinToken == e.joinToken && r.createdAt == e.createdAt && r.ownerMemberId == e.owner
    && r.version == |patches|
    && LastWritten(patches, (p: Patch) => p.ownerDisplayName, e.name, r.ownerDisplayName)
    && LastWritten(patches, (p: Patch) => p.sharedVideo, None, r.sharedVideo)
    && LastWritten(patches, (p: Patch) => p.playback, None, r.playback)
    && LastWritten(patches, (p: Patch) => p.lastActiveAt, e.createdAt, r.lastActiveAt)
    && LastWritten(patches, (p: Patch) => p.expiresAt, None, r.expiresAt)
  }

  lemma WriteOnTop<T>(patches: seq<Patch>, p: Patch, field: Patch -> Option<T>, initial: T, before: T, after: T)
    requires LastWritten(patches, field, initial, before)
    requires (field(p).Some? ==> after == field(p).value) && (field(p).None? ==> after == before)
    ensures LastWritten(patches + [p], field, initial, after)
  {
    var all := patches + [p];
    assert all[|patches|] == p;
    if field(p).None? && !(before == initial && forall k | 0 <= k < |patches| :: field(patches[k]).None?) {
      var k :| 0 <= k < |patches| && field(patches[k]) == Some(before) && forall j | k < j < |patches| :: field(patches[j]).None?;
      assert all[k] == patches[k];
    }
  }

  lemma HoldsOnTop(was: Room, e: Event, patches: seq<Patch>, p: Patch, r: Room)
    requires e.DoCreate? && Holds(was, e, patches) && Memory.Patched(was, p, r, was.lastActiveAt)
    ensures Holds(r, e, patches + [p])
  {
    WriteOnTop(patches, p, (p: Patch) => p.ownerDisplayName, e.name, was.ownerDisplayName, r.ownerDisplayName);
    WriteOnTop(patches, p, (p: Patch) => p.sharedVideo, None, was.sharedVideo, r.sharedVideo);
    WriteOnTop(patches, p, (p: Patch) => p.playback, None, was.playback, r.playback);
    WriteOnTop(patches, p, (p: Patch) => p.lastActiveAt, e.createdAt, was.lastActiveAt, r.lastActiveAt);
    WriteOnTop(patches, p, (p: Patch) => p.expiresAt, None, was.expiresAt, r.expiresAt);
    hide LastWritten;
  }

  lemma HoldsAtBirth(r: Room, e: Event)
    requires e.DoCreate? && r == NewRoom(e.joinToken, e.createdAt, e.owner, e.name)
    ensures Holds(r, e, [])
  {
  }

  predicate Creates(d: Decision) {
    d.Decided? && d.answer == CreateAnswer(true)
  }

  ghost predicate Born(u: System, e: Event, c: Code, r: Room) {
    && e.DoCreate? && e.code == c && Creates(Apply(u, e).1) && e.joinToken !in u.used && PatchOf(u, e, e.joinToken) == []
    && r == NewRoom(e.joinToken, e.createdAt, e.owner, e.name)
  }

  lemma PatchedToken(was: Room, p: Patch, r: Room)
    requires Memory.Patched(was, p, r, was.lastActiveAt)
    ensures r.joinToken == was.joinToken
  {
  }

  /** Where the body of a code comes from in one step: it was there, it was just created, or it was updated there. */
  ghost predicate Stems(u: System, e: Event, c: Code, r: Room) {
    || (BodyOf(u.st, c) == Some(Usable(r)) && PatchOf(u, e, r.joinToken) == [])
    || Born(u, e, c, r)
    || (c in u.st.bodies && u.st.bodies[c].Usable? && exists p :: PatchOf(u, e, r.joinToken) == [p] && Memory.Patched(u.st.bodies[c].room, p, r, u.st.bodies[c].room.lastActiveAt))
  }

  lemma CasStems(u: System, client: Client, indexable: bool, c: Code)
    requires Inv(u)
    ensures var s1 := CasStep(u, client, indexable).0;
            c in s1.st.bodies ==> s1.st.bodies[c].Usable? && Stems(u, LandCas(client, indexable), c, s1.st.bodies[c].room)
  {
    hide SoundIndex, ClientsInv;
    var (s1, d) := CasStep(u, client, indexable);
    if c in s1.st.bodies && client in u.clients {
      var p := u.clients[client];
      if Succeeded(d) {
        var r := Merge(p.raw, p.patch);
        assert d.answer.result.room == r && r.joinToken == p.raw.joinToken;
        if c == p.code {
          assert Memory.Patched(p.raw, p.patch, r, p.raw.lastActiveAt);
          assert PatchOf(u, LandCas(client, indexable), r.joinToken) == [p.patch];
        } else {
          assert u.st.bodies[c].room.joinToken != p.raw.joinToken;
        }
      }
    }
  }

  lemma OtherStems(u: System, e: Event, c: Code)
    requires Inv(u) && !e.LandCas? && c in Apply(u, e).0.st.bodies
    ensures var s1 := Apply(u, e).0; s1.st.bodies[c].Usable? && Stems(u, e, c, s1.st.bodies[c].room)
  {
    hide SoundIndex, ClientsInv, SweepStore, Merge, CanSweep;
    match e {
      case DoSweep(now, limit, token, order) =>
        if CanSweep(u.st, now, limit, order) { SweepIsRemoval(u.st, now, limit, token, order); }
      case _ =>
    }
  }

  /** No update succeeds on an instance whose token was not handed out. */
  lemma {:induction false} NoPatchBeforeBirth(s0: System, es: seq<Event>, t: JoinToken)
    requires Inv(s0)
    ensures t !in Run(s0, es).used ==> PatchesOf(s0, es, t) == []
    decreases |es|
  {
    if es != [] {
      var front, e := es[..|es| - 1], es[|es| - 1];
      var u := Run(s0, front);
      NoPatchBeforeBirth(s0, front, t);
      RunSnoc(s0, front, e);
      assert es == front + [e];
      InvRun(s0, front);
      UsedGrows(u, e, t);
      hide Run, Apply, Inv;
    }
  }

  lemma UsedGrows(u: System, e: Event, t: JoinToken)
    requires Inv(u)
    ensures u.used <= Apply(u, e).0.used
    ensures t !in u.used ==> PatchOf(u, e, t) == []
  {
    hide SoundIndex, TokensInv, SweepStore, CanSweep;
  }

  /** Every room, in every run: somebody created it, and each of its fields is what the last update that succeeded on
      that instance and names the field wrote, or else what it was created with. Its instance, creation time and
      creator are the created ones, and its version counts those updates. */
  lemma {:induction false} RoomHoldsWhatWasLastWritten(s0: System, es: seq<Event>, c: Code) returns (n: nat)
    requires Initial(s0) && c in Run(s0, es).st.bodies
    ensures n < |es| && es[n].DoCreate? && es[n].code == c && Creates(Apply(Run(s0, es[..n]), es[n]).1)
    ensures var body := Run(s0, es).st.bodies[c];
            body.Usable? && Holds(body.room, es[n], PatchesOf(s0, es, body.room.joinToken))
    decreases |es|
  {
    StepBack(s0, es, c);
    hide Run, Apply, Inv, Holds, PatchOf, PatchesOf, Creates, Initial, Stems, Born;
    var front, e := es[..|es| - 1], es[|es| - 1];
    var u := Run(s0, front);
    var r := Run(s0, es).st.bodies[c].room;
    if Born(u, e, c, r) {
      n := |front|;
      BornHolds(u, e, c, r);
      NoPatchBeforeBirth(s0, front, r.joinToken);
    } else {
      StemsFromABody(u, e, c, r);
      n := RoomHoldsWhatWasLastWritten(s0, front, c);
      assert es[..n] == front[..n];
      HoldsOn(u, e, c, r, es[n], PatchesOf(s0, front, u.st.bodies[c].room.joinToken));
    }
  }

  lemma HoldsOn(u: System, e: Event, c: Code, r: Room, creation: Event, patches: seq<Patch>)
    requires Stems(u, e, c, r) && !Born(u, e, c, r)
    requires c in u.st.bodies && u.st.bodies[c].Usable? && creation.DoCreate? && Holds(u.st.bodies[c].room, creation, patches)
    ensures Holds(r, creation, patches + PatchOf(u, e, r.joinToken)) && r.joinToken == u.st.bodies[c].room.joinToken
  {
    hide Holds, PatchOf, Memory.Patched, Born;
    if BodyOf(u.st, c) == Some(Usable(r)) && PatchOf(u, e, r.joinToken) == [] {
      assert patches + [] == patches;
    } else {
      var p :| PatchOf(u, e, r.joinToken) == [p] && Memory.Patched(u.st.bodies[c].room, p, r, u.st.bodies[c].room.lastActiveAt);
      PatchedToken(u.st.bodies[c].room, p, r);
      HoldsOnTop(u.st.bodies[c].room, creation, patches, p, r);
    }
  }

  lemma BornHolds(u: System, e: Event, c: Code, r: Room)
    requires Born(u, e, c, r)
    ensures e.DoCreate? && e.code == c && r.joinToken == e.joinToken && e.joinToken !in u.used && Creates(Apply(u, e).1)
    ensures Holds(r, e, [] + PatchOf(u, e, r.joinToken))
  {
    hide Apply, Holds, PatchOf, Creates;
    assert [] + PatchOf(u, e, r.joinToken) == [];
    HoldsAtBirth(r, e);
  }

  lemma StemsFromABody(u: System, e: Event, c: Code, r: Room)
    requires Stems(u, e, c, r) && !Born(u, e, c, r)
    ensures c in u.st.bodies && u.st.bodies[c].Usable?
  {
  }

  /** The last step of a run, seen from the room it leaves. */
  lemma StepBack(s0: System, es: seq<Event>, c: Code)
    requires Initial(s0) && c in Run(s0, es).st.bodies
    ensures es != [] && Inv(s0)
    ensures var front, e, body := es[..|es| - 1], es[|es| - 1], Run(s0, es).st.bodies[c];
            && body.Usable? && Stems(Run(s0, front), e, c, body.room)
            && PatchesOf(s0, es, body.room.joinToken) == PatchesOf(s0, front, body.room.joinToken) + PatchOf(Run(s0, front), e, body.room.joinToken)
  {
    hide Apply, SoundIndex, TokensInv, ClientsInv, PatchOf, Stems;
    assert es != [];
    var front, e := es[..|es| - 1], es[|es| - 1];
    RunSnoc(s0, front, e);
    assert es == front + [e];
    assert Inv(s0) by { StartIsSound(s0); }
    InvRun(s0, front);
    if e.LandCas? { CasStems(Run(s0, front), e.client, e.indexable, c); } else { OtherStems(Run(s0, front), e, c); }
    assert Run(s0, es) == Apply(Run(s0, front), e).0;
    assert e.LandCas? ==> Apply(Run(s0, front), e).0 == CasStep(Run(s0, front), e.client, e.indexable).0 by { LandIsCas(Run(s0, front), e); }
  }

  lemma LandIsCas(u: System, e: Event)
    ensures e.LandCas? ==> Apply(u, e) == CasStep(u, e.client, e.indexable)
  {
  }

  lemma StartIsSound(s: System)
    requires Initial(s)
    ensures Inv(s)
  {
  }

  // ---- Equal bytes mean the body never changed ----

  /** The record at `c` is no longer `raw`, and never will be again. */
  predicate Overtaken(s: System, c: Code, raw: Room) {
    && raw.joinToken in s.used
    && BodyOf(s.st, c) != Some(Usable(raw))
    && (c in s.st.bodies && s.st.bodies[c].Usable? && s.st.bodies[c].room.joinToken == raw.joinToken ==>
          s.st.bodies[c].room.version > raw.version)
  }

  /** What one step may do to the record at `c`. */
  predicate Progress(s: System, s': System, c: Code) {
    && s.used <= s'.used
    && (|| BodyOf(s'.st, c) == BodyOf(s.st, c)
        || BodyOf(s'.st, c) == None
        || (&& c in s.st.bodies && c in s'.st.bodies && s.st.bodies[c].Usable? && s'.st.bodies[c].Usable?
            && s'.st.bodies[c].room.joinToken == s.st.bodies[c].room.joinToken
            && s'.st.bodies[c].room.version == s.st.bodies[c].room.version + 1)
        || (c in s'.st.bodies && s'.st.bodies[c].Usable? && s'.st.bodies[c].room.joinToken !in s.used))
  }

  lemma SweepProgress(s: System, now: int, limit: nat, token: ClaimToken, order: seq<Code>, c: Code)
    requires Inv(s)
    ensures Progress(s, SweepStep(s, now, limit, token, order).0, c)
  {
    if CanSweep(s.st, now, limit, order) {
      SweepIsRemoval(s.st, now, limit, token, order);
    }
    hide SweepStore, Inv;
  }

  lemma StepProgress(s: System, e: Event, c: Code)
    requires Inv(s)
    ensures Progress(s, Apply(s, e).0, c)
  {
    match e {
      case DoSweep(now, limit, token, order) =>
        SweepProgress(s, now, limit, token, order, c);
        hide Apply, Progress;
      case _ =>
        hide Inv;
    }
  }

  lemma OvertakenStays(s: System, s': System, c: Code, raw: Room)
    requires Overtaken(s, c, raw) && Progress(s, s', c)
    ensures Overtaken(s', c, raw)
  {
  }

  lemma {:induction false} OvertakenRun(s: System, es: seq<Event>, c: Code, raw: Room)
    requires Inv(s) && Overtaken(s, c, raw)
    ensures Overtaken(Run(s, es), c, raw)
    decreases |es|
  {
    if es != [] {
      InvStep(s, es[0]);
      StepProgress(s, es[0], c);
      OvertakenStays(s, Apply(s, es[0]).0, c, raw);
      hide Inv, Apply, Overtaken;
      OvertakenRun(Apply(s, es[0]).0, es[1..], c, raw);
    }
  }

  lemma LeavingIsOvertaken(s: System, s': System, c: Code, raw: Room)
    requires Inv(s) && BodyOf(s.st, c) == Some(Usable(raw)) && Progress(s, s', c)
    ensures BodyOf(s'.st, c) == Some(Usable(raw)) || Overtaken(s', c, raw)
  {
  }

  lemma {:induction false} SameBodyMeansUnchanged(s: System, es: seq<Event>, c: Code, raw: Room, n: nat)
    requires Inv(s) && BodyOf(s.st, c) == Some(Usable(raw)) && n <= |es|
    requires BodyOf(Run(s, es).st, c) == Some(Usable(raw))
    ensures BodyOf(Run(s, es[..n]).st, c) == Some(Usable(raw))
    decreases |es|
  {
    if n > 0 {
      var t := Apply(s, es[0]).0;
      InvStep(s, es[0]);
      StepProgress(s, es[0], c);
      LeavingIsOvertaken(s, t, c, raw);
      hide Inv, Apply;
      if BodyOf(t.st, c) != Some(Usable(raw)) {
        OvertakenRun(t, es[1..], c, raw);
        assert false;
      }
      SameBodyMeansUnchanged(t, es[1..], c, raw, n - 1);
      assert es[..n][1..] == es[1..][..n - 1];
    }
  }

  /** The record still reads the same at the end exactly when it read the same all along. */
  lemma SameBodyIffUnchanged(s: System, es: seq<Event>, c: Code, raw: Room)
    requires Inv(s) && BodyOf(s.st, c) == Some(Usable(raw))
    ensures BodyOf(Run(s, es).st, c) == Some(Usable(raw)) <==>
              forall n | 0 <= n <= |es| :: BodyOf(Run(s, es[..n]).st, c) == Some(Usable(raw))
  {
    hide Inv, Run;
    assert es[..|es|] == es;
    if BodyOf(Run(s, es).st, c) == Some(Usable(raw)) {
      forall n | 0 <= n <= |es|
        ensures BodyOf(Run(s, es[..n]).st, c) == Some(Usable(raw))
      {
        SameBodyMeansUnchanged(s, es, c, raw, n);
      }
    }
  }

  /** One compare-and-set on its own: decided by the record as it stands. */
  lemma CasDecides(u: System, client: Client, indexable: bool)
    requires Inv(u) && client in u.clients
    ensures var p := u.clients[client]; var d := CasStep(u, client, indexable).1;
            && (Succeeded(d) <==> indexable && BodyOf(u.st, p.code) == Some(Usable(p.raw)))
            && (d == Conflict ==> p.code in u.st.bodies && BodyOf(u.st, p.code) != Some(Usable(p.raw)))
  {
    hide SoundIndex, Refusal, Merge;
  }

  lemma ReadPinsTheRecord(s: System, client: Client, c: Code, guard: Guard, patch: Patch, now: int)
    requires client !in s.clients
    ensures var t := ReadStep(s, client, c, guard, patch, now).0;
            t.st == s.st && (client in t.clients ==> t.clients[client].code == c && BodyOf(s.st, c) == Some(Usable(t.clients[client].raw)))
  {
    hide Refusal;
  }

  /** An update that passed its read succeeds exactly when the index can be written and the record never changed
      in between; it answers a conflict only when the record changed and something is still there. */
  lemma CasSucceedsIffUntouched(s0: System, es: seq<Event>, client: Client, c: Code, guard: Guard, patch: Patch, now: int,
                                more: seq<Event>, indexable: bool)
    requires Initial(s0)
    requires client !in Run(s0, es).clients
    ensures var s := Run(s0, es);
            var t := Apply(s, ReadForUpdate(client, c, guard, patch, now)).0;
            var u := Run(t, more);
            client in t.clients && client in u.clients && u.clients[client] == t.clients[client] ==>
              var d := Apply(u, LandCas(client, indexable)).1;
              && (Succeeded(d) <==> indexable && forall n | 0 <= n <= |more| :: BodyOf(Run(t, more[..n]).st, c) == BodyOf(s.st, c))
              && (d == Conflict ==> c in u.st.bodies && BodyOf(u.st, c) != BodyOf(s.st, c))
  {
    InvRun(s0, es);
    hide Run, Inv, ReadStep, CasStep;
    var s := Run(s0, es);
    var e := ReadForUpdate(client, c, guard, patch, now);
    var t := Apply(s, e).0;
    InvStep(s, e);
    ReadPinsTheRecord(s, client, c, guard, patch, now);
    var u := Run(t, more);
    if client in t.clients && client in u.clients && u.clients[client] == t.clients[client] {
      InvRun(t, more);
      CasDecides(u, client, indexable);
      SameBodyIffUnchanged(t, more, c, t.clients[client].raw);
    }
  }

  // ---- Conflicts an atomic store would not answer ----

  lemma {:induction false} LeftIsOvertaken(s: System, es: seq<Event>, c: Code, raw: Room)
    requires Inv(s) && BodyOf(s.st, c) == Some(Usable(raw)) && BodyOf(Run(s, es).st, c) != Some(Usable(raw))
    ensures Overtaken(Run(s, es), c, raw)
    decreases |es|
  {
    if es != [] {
      var t := Apply(s, es[0]).0;
      InvStep(s, es[0]);
      StepProgress(s, es[0], c);
      LeavingIsOvertaken(s, t, c, raw);
      hide Inv, Apply, Overtaken;
      if BodyOf(t.st, c) == Some(Usable(raw)) {
        LeftIsOvertaken(t, es[1..], c, raw);
      } else {
        OvertakenRun(t, es[1..], c, raw);
      }
    }
  }

  /** A record that took the place of `raw` still passes a guard that `raw` passed. */
  predicate StillAdmitted(guard: Guard, raw: Room, current: Room) {
    match guard
    case AtVersion(_) => current.joinToken != raw.joinToken && current.version == raw.version
    case Instance(_, at) => at.None? && current.joinToken == raw.joinToken
  }

  lemma AdmittedIff(u: System, c: Code, guard: Guard, raw: Room)
    requires Overtaken(u, c, raw) && Refusal(raw, guard).None? && c in u.st.bodies && u.st.bodies[c].Usable?
    ensures Refusal(u.st.bodies[c].room, guard).None? <==> StillAdmitted(guard, raw, u.st.bodies[c].room)
  {
  }

  lemma UpdatedIff(bodies: map<Code, Body>, c: Code, guard: Guard, patch: Patch, now: int)
    requires c in bodies && bodies[c].Usable?
    ensures Memory.Update(RoomsOf(bodies), c, guard, patch, now).1.Updated? <==> Refusal(bodies[c].room, guard).None?
  {
    hide Merge;
  }

  /** A conflict is one the in-memory store would not have answered exactly where the guard names only the instance
      and it still holds the code, or names only the version and another instance at that version took the code. A
      guard that names both never meets one. */
  lemma ConflictIsSpuriousIff(s0: System, es: seq<Event>, client: Client, c: Code, guard: Guard, patch: Patch, now: int,
                              more: seq<Event>, indexable: bool)
    requires Initial(s0)
    requires client !in Run(s0, es).clients
    ensures var s := Run(s0, es);
            var t := Apply(s, ReadForUpdate(client, c, guard, patch, now)).0;
            var u := Run(t, more);
            client in t.clients && client in u.clients && u.clients[client] == t.clients[client]
            && Apply(u, LandCas(client, indexable)).1 == Conflict ==>
              && c in u.st.bodies && u.st.bodies[c].Usable?
              && (Memory.Update(RoomsOf(u.st.bodies), c, guard, patch, now).1.Updated? <==>
                    StillAdmitted(guard, t.clients[client].raw, u.st.bodies[c].room))
  {
    InvRun(s0, es);
    hide Run, ReadStep, CasStep, Overtaken, StillAdmitted, RoomsOf;
    var s := Run(s0, es);
    var e := ReadForUpdate(client, c, guard, patch, now);
    var t := Apply(s, e).0;
    InvStep(s, e);
    ReadPinsTheRecord(s, client, c, guard, patch, now);
    var u := Run(t, more);
    if client in t.clients && client in u.clients && u.clients[client] == t.clients[client] {
      InvRun(t, more);
      CasDecides(u, client, indexable);
      var raw := t.clients[client].raw;
      GuardIsPinned(s, client, c, guard, patch, now);
      if Apply(u, LandCas(client, indexable)).1 == Conflict {
        LeftIsOvertaken(t, more, c, raw);
        AdmittedIff(u, c, guard, raw);
        UpdatedIff(u.st.bodies, c, guard, patch, now);
      }
    }
  }

  lemma GuardIsPinned(s: System, client: Client, c: Code, guard: Guard, patch: Patch, now: int)
    requires client !in s.clients
    ensures var t := ReadStep(s, client, c, guard, patch, now).0;
            client in t.clients ==> Refusal(t.clients[client].raw, guard).None?
  {
    hide Refusal;
  }

  const Unused := System(Store(map[], map[], Debts(map[], map[], 0)), map[], {}, map[])
  const NoChange := Patch(None, None, None, None, None)
  const Fresh := NewRoom(1, 0, None, None)

  /** One room, and two clients that both read it before either writes. */
  const TwoReaders := [DoCreate("A", 1, 0, None, None, true),
                       ReadForUpdate(1, "A", Instance(1, None), NoChange, 5), ReadForUpdate(2, "A", Instance(1, None), NoChange, 6)]

  lemma TwoReadersWait()
    ensures var s := Run(Unused, TwoReaders);
            && s.st.bodies == map["A" := Usable(Fresh)]
            && s.clients == map[1 := Pending("A", Instance(1, None), NoChange, Fresh, 5), 2 := Pending("A", Instance(1, None), NoChange, Fresh, 6)]
    ensures Operations(Unused, TwoReaders) == [OpCreate("A", 1, 0, None, None)]
  {
    var s1 := Apply(Unused, TwoReaders[0]).0;
    assert s1.st.bodies == map["A" := Usable(Fresh)];
    var s2 := Apply(s1, TwoReaders[1]).0;
    assert s2.clients == map[1 := Pending("A", Instance(1, None), NoChange, Fresh, 5)] && s2.st == s1.st;
    var s3 := Apply(s2, TwoReaders[2]).0;
    assert s3.clients == map[1 := Pending("A", Instance(1, None), NoChange, Fresh, 5), 2 := Pending("A", Instance(1, None), NoChange, Fresh, 6)];
    assert Apply(Unused, TwoReaders[0]).1.Decided? && Apply(s1, TwoReaders[1]).1 == Undecided && Apply(s2, TwoReaders[2]).1 == Undecided;
    assert Apply(Unused, TwoReaders[0]).1.op == OpCreate("A", 1, 0, None, None);
    hide Apply;
    RunThree(Unused, TwoReaders[0], TwoReaders[1], TwoReaders[2]);
  }

  lemma RunThree(s: System, a: Event, b: Event, c: Event)
    ensures var s1, s2 := Apply(s, a).0, Apply(Apply(s, a).0, b).0;
            && Run(s, [a, b, c]) == Apply(s2, c).0
            && (Apply(s1, b).1 == Undecided && Apply(s2, c).1 == Undecided && Apply(s, a).1.Decided? ==>
                  Operations(s, [a, b, c]) == [Apply(s, a).1.op])
  {
    hide Apply;
    var s1, s2 := Apply(s, a).0, Apply(Apply(s, a).0, b).0;
    assert [a, b, c][1..] == [b, c] && [b, c][1..] == [c] && [c][1..] == [];
    assert Run(s, [a, b, c]) == Run(s1, [b, c]) == Run(s2, [c]) == Run(Apply(s2, c).0, []);
    if Apply(s1, b).1 == Undecided && Apply(s2, c).1 == Undecided {
      assert Operations(s2, [c]) == [] + Operations(Apply(s2, c).0, []) == [];
      assert Operations(s1, [b, c]) == [] + Operations(s2, [c]) == [];
      assert Operations(s, [a, b, c]) == (if Apply(s, a).1.Decided? then [Apply(s, a).1.op] else []) + Operations(s1, [b, c]);
    }
  }

  /** Client 2 lands first; client 1 is answered a conflict although its guard still admits the room. */
  lemma ConflictWhereMemorySucceeds()
    ensures Initial(Unused)
    ensures var s := Run(Unused, TwoReaders);
            var (u, first) := Apply(s, LandCas(2, true));
            && Succeeded(first) && Apply(u, LandCas(1, true)).1 == Conflict
            && Memory.Update(RoomsOf(u.st.bodies), "A", Instance(1, None), NoChange, 5).1.Updated?
  {
    TwoReadersWait();
    hide Run;
    var s := Run(Unused, TwoReaders);
    var u := Apply(s, LandCas(2, true)).0;
    assert u.st.bodies == map["A" := Usable(Merge(Fresh, NoChange))];
    UpdatedIff(u.st.bodies, "A", Instance(1, None), NoChange, 5);
    hide RoomsOf;
  }

  /** The stores differ on one update exactly where it succeeds, omits the last-active time, and that time is not
      already now. */
  lemma DefaultsDifferIff(rooms: Memory.RoomMap, c: Code, guard: Guard, patch: Patch, now: int)
    ensures var op := OpUpdate(c, guard, patch, now);
            Executed(rooms, op, true) != Executed(rooms, op, false) <==>
              c in rooms && Refusal(rooms[c], guard).None? && patch.lastActiveAt.None? && rooms[c].lastActiveAt != now
  {
    hide Refusal;
    if c in rooms && Refusal(rooms[c], guard).None? {
      var kept := Merge(rooms[c], patch).(lastActiveAt := Or(patch.lastActiveAt, rooms[c].lastActiveAt));
      var stamped := Merge(rooms[c], patch).(lastActiveAt := Or(patch.lastActiveAt, now));
      assert Executed(rooms, OpUpdate(c, guard, patch, now), true).1 == UpdateAnswer(Updated(kept));
      assert Executed(rooms, OpUpdate(c, guard, patch, now), false).1 == UpdateAnswer(Updated(stamped));
    }
  }

  /** At the input: a fresh room last active at 0, and an update at 5 that changes nothing. */
  lemma DefaultsDiffer()
    ensures var op := OpUpdate("A", AtVersion(0), NoChange, 5);
            && Executed(map["A" := Fresh], op, true).0["A"].lastActiveAt == 0
            && Executed(map["A" := Fresh], op, false).0["A"].lastActiveAt == 5
  {
  }
}
