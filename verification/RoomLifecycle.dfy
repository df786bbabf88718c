/**
 The life of one recycled room code across many nodes.

 A creator writes the room body, reads ("pins") the generation key, and stamps a
 fresh generation on condition that the key still holds its pin. A tearer pins the
 generation, observes that no body exists, confirms the generation, and issues a
 delete of the runtime keys on the same kind of condition. Joins are pinned too.
 Every issued command may land at any later step, or never: giving up on it
 does not cancel it.

 Everything is per room code; the keys of different codes are disjoint.
 */
module RoomLifecycle {

  /** The joinToken of one room instance. The creator draws its generation UUID in the
      same request, so the stamp is named by the instance it was drawn for. */
  type Instance = nat
  type Caller = nat
  type Session = nat
  type JoinId = nat

  datatype Generation = Absent | Stamped(owner: Instance) | Tombstone

  /** The other keys of a room that a teardown clears. */
  datatype RoomKey = Members | MemberTokens | TokenExpiry | BlockedTokens | MessageSlots

  /** `listed` says that the code is in the set of active rooms. */
  datatype RuntimeKeys = RuntimeKeys(generation: Generation, sessions: set<Session>, listed: bool, entries: map<RoomKey, set<nat>>)

  // ---- The three generation-guarded scripts ----

  function Mark(k: RuntimeKeys, stamp: Instance, pin: Generation): RuntimeKeys {
    if k.generation != pin then k else k.(generation := Stamped(stamp))
  }

  function DeleteKeys(k: RuntimeKeys, pin: Generation): RuntimeKeys {
    if k.generation != pin then k else RuntimeKeys(Tombstone, {}, false, map[])
  }

  function JoinIndex(k: RuntimeKeys, session: Session, pin: Generation): RuntimeKeys {
    if k.generation != pin then k else k.(sessions := k.sessions + {session}, listed := true)
  }

  /** The runtime keys of one code as Redis holds them, changed in place by the scripts. */
  class RuntimeRoom {
    var generation: Generation
    var sessions: set<Session>
    var listed: bool
    var entries: map<RoomKey, set<nat>>

    function View(): RuntimeKeys
      reads this
    {
      RuntimeKeys(generation, sessions, listed, entries)
    }

    constructor ()
      ensures View() == RuntimeKeys(Absent, {}, false, map[])
    {
      generation, sessions, listed, entries := Absent, {}, false, map[];
    }

    method MarkRoomGeneration(stamp: Instance, expectedPrevious: Generation) returns (applied: bool)
      modifies this
      ensures applied == (old(generation) == expectedPrevious)
      ensures View() == Mark(old(View()), stamp, expectedPrevious)
      ensures applied ==> generation == Stamped(stamp) && sessions == old(sessions) && entries == old(entries)
      ensures !applied ==> View() == old(View())
    {
      if generation != expectedPrevious {
        return false;
      }
      generation := Stamped(stamp);
      return true;
    }

    method DeleteRoom(expectedGeneration: Generation) returns (applied: bool)
      modifies this
      ensures applied == (old(generation) == expectedGeneration)
      ensures View() == DeleteKeys(old(View()), expectedGeneration)
      ensures applied ==> generation == Tombstone && sessions == {} && entries == map[] && !listed
      ensures !applied ==> View() == old(View())
    {
      if generation != expectedGeneration {
        return false;
      }
      sessions, entries := {}, map[];
      generation := Tombstone;
      listed := false;
      return true;
    }

    method JoinRoomIndex(session: Session, expectedGeneration: Generation) returns (applied: bool)
      modifies this
      ensures applied == (old(generation) == expectedGeneration)
      ensures View() == JoinIndex(old(View()), session, expectedGeneration)
      ensures applied ==> sessions == old(sessions) + {session} && listed && generation == old(generation) && entries == old(entries)
      ensures !applied ==> View() == old(View())
    {
      if generation != expectedGeneration {
        return false;
      }
      sessions := sessions + {session};
      listed := true;
      return true;
    }
  }

  // ---- The transition system ----

  datatype Body = NoBody | Room(instance: Instance, expired: bool)

  datatype CreatorPhase = Creating | Built | Pinned(pin: Generation) | Marking | Live | GaveUp

  datatype TearerPhase = PinnedGeneration(pin: Generation) | SawNoBody(pin: Generation) | Finished

  datatype PinnedJoin = PinnedJoin(session: Session, pin: Generation)

  /** What happened so far; nothing in a step is decided by it except freshness of names. */
  datatype History = History(
    births: nat,                    // bodies created so far
    bornAt: map<Instance, nat>,     // which birth made the instance's body
    dead: set<Instance>,            // instances whose body was deleted
    landedAt: map<Instance, nat>,   // births so far when that stamp landed
    latePins: set<Instance>         // creators that pinned when their body was already gone
  )

  datatype System = System(
    body: Body,
    keys: RuntimeKeys,
    creators: map<Instance, CreatorPhase>,
    tearers: map<Caller, TearerPhase>,
    // Commands in flight, each with the pin it carries.
    creates: set<Instance>,
    expires: set<Instance>,
    closes: set<Instance>,
    marks: map<Instance, Generation>,
    teardowns: map<Caller, Generation>,
    joins: map<JoinId, PinnedJoin>,
    history: History
  )

  datatype CreatorEvent =
    | StartCreate(i: Instance)
    | AbandonCreate(i: Instance)
    | LandCreate(i: Instance)
    | PinForStamp(i: Instance)
    | IssueMark(i: Instance)
    | AbandonMark(i: Instance)
    | LandMark(i: Instance)

  datatype BodyEvent =
    | LandExpire(i: Instance)
    | RequestClose(i: Instance)
    | LandClose(i: Instance)
    | CollectExpired
    | UpdateBody(expired: bool)

  datatype TearerEvent =
    | StartTeardown(c: Caller)
    | ObserveBody(c: Caller)
    | ConfirmGeneration(c: Caller)
    | LandTeardown(c: Caller)

  datatype IndexEvent =
    | PinForJoin(j: JoinId, x: Session)
    | LandJoin(j: JoinId)
    | WriteKey(key: RoomKey, written: set<nat>)
    | Unlist
    | LeaveIndex(x: Session)

  datatype Event = Creator(ce: CreatorEvent) | Stored(be: BodyEvent) | Tearer(te: TearerEvent) | Index(ie: IndexEvent)

  predicate Holds(b: Body, i: Instance) {
    b.Room? && b.instance == i
  }

  function Born(h: History, i: Instance): History {
    h.(births := h.births + 1, bornAt := h.bornAt[i := h.births + 1])
  }

  function Died(h: History, i: Instance): History {
    h.(dead := h.dead + {i})
  }

  function Landed(h: History, i: Instance): History {
    h.(landedAt := h.landedAt[i := h.births])
  }

  function KillBody(s: System): System {
    match s.body
    case NoBody => s
    case Room(i, _) => s.(body := NoBody, history := Died(s.history, i))
  }

  function LandCreateStep(s: System, i: Instance): System {
    if i !in s.creates then s else
    var s1 := s.(creates := s.creates - {i});
    var waiting := i in s.creators && s.creators[i].Creating?;
    if s.body.Room? then
      // SET NX lost; a creator still waiting moves on to another code.
      if waiting then s1.(creators := s.creators[i := GaveUp]) else s1
    else
      var s2 := s1.(body := Room(i, false), history := Born(s.history, i));
      if waiting then s2.(creators := s.creators[i := Built]) else s2
  }

  function PinForStampStep(s: System, i: Instance): System {
    if !(i in s.creators && s.creators[i].Built?) then s else
    var h := s.history;
    s.(creators := s.creators[i := Pinned(s.keys.generation)],
       history := if Holds(s.body, i) then h else h.(latePins := h.latePins + {i}))
  }

  function LandMarkStep(s: System, i: Instance): System {
    if i !in s.marks then s else
    var pin := s.marks[i];
    var waiting := i in s.creators && s.creators[i].Marking?;
    var s1 := s.(marks := s.marks - {i}, keys := Mark(s.keys, i, pin));
    if s.keys.generation == pin then
      var s2 := s1.(history := Landed(s.history, i));
      if waiting then s2.(creators := s.creators[i := Live]) else s2
    else if waiting then
      // Superseded: the creator rolls its unstamped room back by expiring it.
      s1.(creators := s.creators[i := GaveUp], expires := s.expires + {i})
    else s1
  }

  function CreatorStep(s: System, e: CreatorEvent): System {
    match e
    case StartCreate(i) =>
      if i in s.creators || i in s.history.bornAt then s
      else s.(creators := s.creators[i := Creating], creates := s.creates + {i})
    case AbandonCreate(i) =>
      if !(i in s.creators && s.creators[i].Creating?) then s
      else s.(creators := s.creators[i := GaveUp], expires := s.expires + {i})
    case LandCreate(i) => LandCreateStep(s, i)
    case PinForStamp(i) => PinForStampStep(s, i)
    case IssueMark(i) =>
      if !(i in s.creators && s.creators[i].Pinned?) then s
      else s.(creators := s.creators[i := Marking], marks := s.marks[i := s.creators[i].pin])
    case AbandonMark(i) =>
      if !(i in s.creators && s.creators[i].Marking?) then s
      else s.(creators := s.creators[i := GaveUp], expires := s.expires + {i})
    case LandMark(i) => LandMarkStep(s, i)
  }

  function BodyStep(s: System, e: BodyEvent): System {
    match e
    case LandExpire(i) =>
      if i !in s.expires then s
      else s.(expires := s.expires - {i},
              body := if Holds(s.body, i) then Room(i, true) else s.body)
    case RequestClose(i) => s.(closes := s.closes + {i})
    case LandClose(i) =>
      if i !in s.closes then s
      else
        var s1 := s.(closes := s.closes - {i});
        if Holds(s.body, i) then KillBody(s1) else s1
    case CollectExpired => if s.body.Room? && s.body.expired then KillBody(s) else s
    case UpdateBody(expired) => if s.body.Room? then s.(body := Room(s.body.instance, expired)) else s
  }

  function TearerStep(s: System, e: TearerEvent): System {
    match e
    case StartTeardown(c) =>
      if c in s.tearers then s
      else s.(tearers := s.tearers[c := PinnedGeneration(s.keys.generation)])
    case ObserveBody(c) =>
      if !(c in s.tearers && s.tearers[c].PinnedGeneration?) then s
      else if s.body.Room? then s.(tearers := s.tearers[c := Finished])
      else s.(tearers := s.tearers[c := SawNoBody(s.tearers[c].pin)])
    case ConfirmGeneration(c) =>
      if !(c in s.tearers && s.tearers[c].SawNoBody?) then s
      else
        var pin := s.tearers[c].pin;
        var s1 := s.(tearers := s.tearers[c := Finished]);
        if s.keys.generation == pin then s1.(teardowns := s.teardowns[c := pin]) else s1
    case LandTeardown(c) =>
      if c !in s.teardowns then s
      else s.(teardowns := s.teardowns - {c}, keys := DeleteKeys(s.keys, s.teardowns[c]))
  }

  function IndexStep(s: System, e: IndexEvent): System {
    match e
    case PinForJoin(j, x) =>
      // A pin that reads the tombstone is refused outright.
      if j in s.joins || s.keys.generation.Tombstone? then s
      else s.(joins := s.joins[j := PinnedJoin(x, s.keys.generation)])
    case LandJoin(j) =>
      // Retries carry the same pin, so one pinned join may land any number of times.
      if j !in s.joins then s
      else s.(keys := JoinIndex(s.keys, s.joins[j].session, s.joins[j].pin))
    // Seats, tokens, clocks, blocks and slots are written by others, whatever the generation says.
    case WriteKey(key, written) => s.(keys := s.keys.(entries := s.keys.entries[key := written]))
    case Unlist => s.(keys := s.keys.(listed := false))
    case LeaveIndex(x) => s.(keys := s.keys.(sessions := s.keys.sessions - {x}))
  }

  function Apply(s: System, e: Event): System {
    match e
    case Creator(ce) => CreatorStep(s, ce)
    case Stored(be) => BodyStep(s, be)
    case Tearer(te) => TearerStep(s, te)
    case Index(ie) => IndexStep(s, ie)
  }

  function Run(s: System, es: seq<Event>): System
    decreases |es|
  {
    if es == [] then s else Run(Apply(s, es[0]), es[1..])
  }

  /** A code never used before, or one that carries a room older than generations. */
  predicate Initial(s: System) {
    && s.keys.generation == Absent
    && s.creators == map[] && s.tearers == map[]
    && s.creates == {} && s.expires == {} && s.marks == map[] && s.teardowns == map[] && s.joins == map[]
    && s.history.dead == {} && s.history.landedAt == map[] && s.history.latePins == {}
    && match s.body
       case NoBody => s.history.births == 0 && s.history.bornAt == map[]
       case Room(i, _) => s.history.births == 1 && s.history.bornAt == map[i := 1]
  }

  // ---- Invariants ----

  /** Every instance ever born is the living one or dead; the living one is the latest born. */
  predicate LivesInv(b: Body, h: History) {
    && (forall i <- h.bornAt :: 1 <= h.bornAt[i] <= h.births)
    && (forall i <- h.bornAt :: i in h.dead || Holds(b, i))
    && h.dead <= h.bornAt.Keys
    && (b.Room? ==> b.instance in h.bornAt && b.instance !in h.dead && h.bornAt[b.instance] == h.births)
    && (forall i <- h.dead :: b.Room? ==> h.bornAt[i] < h.births)
    && h.landedAt.Keys <= h.bornAt.Keys
    && (forall g <- h.landedAt :: h.landedAt[g] <= h.births)
  }

  /** How far a creator has come bounds what its instance can have done. */
  predicate CreatorInv(phase: CreatorPhase, i: Instance, creates: set<Instance>, marks: map<Instance, Generation>, h: History) {
    && (i in creates ==> i !in h.bornAt && (phase.Creating? || phase.GaveUp?))
    && (i in marks ==> i !in h.landedAt && i in h.bornAt && (phase.Marking? || phase.GaveUp?))
    && (phase.Creating? ==> i !in h.bornAt)
    && (phase.Built? || phase.Pinned? ==> i in h.bornAt && i !in h.landedAt)
  }

  predicate CreatorsInv(creators: map<Instance, CreatorPhase>, creates: set<Instance>, marks: map<Instance, Generation>, h: History) {
    && creates <= creators.Keys
    && marks.Keys <= creators.Keys
    && (forall i <- creators :: CreatorInv(creators[i], i, creates, marks, h))
  }

  predicate LandedPin(g: Generation, h: History) {
    g.Stamped? ==> g.owner in h.landedAt
  }

  /** A stamped living room sits under a generation that landed during its own life. */
  predicate ShieldInv(b: Body, g: Generation, h: History) {
    && LandedPin(g, h)
    && (b.Room? && b.instance in h.landedAt ==> g.Stamped? && h.landedAt[g.owner] == h.births)
  }

  /** What a caller that pinned `p` and then saw no body may rely on for good. */
  predicate StalePin(p: Generation, b: Body, h: History) {
    p.Stamped? ==>
      && p.owner in h.landedAt
      && p.owner in h.dead
      && (b.Room? ==> h.landedAt[p.owner] < h.births)
  }

  predicate TearerInv(phase: TearerPhase, b: Body, h: History) {
    match phase
    case PinnedGeneration(p) => LandedPin(p, h)
    case SawNoBody(p) => StalePin(p, b, h)
    case Finished => true
  }

  predicate TearersInv(tearers: map<Caller, TearerPhase>, teardowns: map<Caller, Generation>, b: Body, h: History) {
    && (forall c <- tearers :: TearerInv(tearers[c], b, h))
    && (forall c <- teardowns :: StalePin(teardowns[c], b, h))
  }

  /** A creator that pinned while its body was there pinned something at most that old. */
  predicate OnTimePin(p: Generation, i: Instance, h: History) {
    i !in h.latePins && p.Stamped? ==>
      && p.owner in h.landedAt && i in h.bornAt
      && h.landedAt[p.owner] <= h.bornAt[i]
  }

  predicate PinsInv(creators: map<Instance, CreatorPhase>, marks: map<Instance, Generation>, h: History) {
    && (forall i <- creators :: creators[i].Pinned? ==> OnTimePin(creators[i].pin, i, h))
    && (forall i <- marks :: OnTimePin(marks[i], i, h))
  }

  predicate JoinsInv(joins: map<JoinId, PinnedJoin>, k: RuntimeKeys) {
    && (forall j <- joins :: !joins[j].pin.Tombstone?)
    && (k.generation.Tombstone? ==> k.sessions == {})
  }

  predicate Inv(s: System) {
    && LivesInv(s.body, s.history)
    && CreatorsInv(s.creators, s.creates, s.marks, s.history)
    && ShieldInv(s.body, s.keys.generation, s.history)
    && TearersInv(s.tearers, s.teardowns, s.body, s.history)
    && PinsInv(s.creators, s.marks, s.history)
    && JoinsInv(s.joins, s.keys)
  }

  /** How body and history may move together in one step. */
  predicate Grows(b: Body, h: History, b': Body, h': History) {
    && (forall i <- h.bornAt :: i in h'.bornAt && h'.bornAt[i] == h.bornAt[i])
    && h.dead <= h'.dead
    && (forall g <- h.landedAt :: g in h'.landedAt && h'.landedAt[g] == h.landedAt[g])
    && h.latePins <= h'.latePins
    && (b'.Room? ==> (Holds(b, b'.instance) && h'.births == h.births) || (forall g <- h.landedAt :: h.landedAt[g] < h'.births))
  }

  /** What a tearer knows stays known. */
  lemma TearersKept(tearers: map<Caller, TearerPhase>, teardowns: map<Caller, Generation>,
                    b: Body, h: History, b': Body, h': History)
    requires TearersInv(tearers, teardowns, b, h) && Grows(b, h, b', h')
    ensures TearersInv(tearers, teardowns, b', h')
  {
  }

  lemma PinsKept(creators: map<Instance, CreatorPhase>, marks: map<Instance, Generation>, b: Body, h: History, b': Body, h': History)
    requires PinsInv(creators, marks, h) && Grows(b, h, b', h')
    ensures PinsInv(creators, marks, h')
  {
  }

  lemma BirthKeeps(s: System, i: Instance, creators: map<Instance, CreatorPhase>)
    requires Inv(s) && s.body.NoBody? && i in s.creates
    requires creators == s.creators || (s.creators[i].Creating? && creators == s.creators[i := Built])
    ensures LivesInv(Room(i, false), Born(s.history, i))
    ensures Grows(s.body, s.history, Room(i, false), Born(s.history, i))
    ensures ShieldInv(Room(i, false), s.keys.generation, Born(s.history, i))
  {
    hide TearersInv, PinsInv, JoinsInv;
    assert CreatorInv(s.creators[i], i, s.creates, s.marks, s.history);
  }

  lemma BirthKeepsCreators(s: System, i: Instance, creators: map<Instance, CreatorPhase>)
    requires Inv(s) && s.body.NoBody? && i in s.creates
    requires (creators == s.creators && !s.creators[i].Creating?) || (s.creators[i].Creating? && creators == s.creators[i := Built])
    ensures CreatorsInv(creators, s.creates - {i}, s.marks, Born(s.history, i))
    ensures PinsInv(creators, s.marks, Born(s.history, i))
  {
    hide TearersInv, JoinsInv, ShieldInv;
    assert CreatorInv(s.creators[i], i, s.creates, s.marks, s.history);
  }

  lemma LandCreateKeeps(s: System, i: Instance)
    requires Inv(s)
    ensures Inv(LandCreateStep(s, i))
  {
    if i in s.creates && s.body.NoBody? {
      var t := LandCreateStep(s, i);
      BirthKeeps(s, i, t.creators);
      BirthKeepsCreators(s, i, t.creators);
      hide LivesInv, CreatorsInv, ShieldInv, TearersInv, PinsInv, JoinsInv, Grows;
      TearersKept(s.tearers, s.teardowns, s.body, s.history, t.body, t.history);
    }
  }

  /** A stamp that applies: the generation, the history and the creator move together. */
  lemma StampKeeps(s: System, i: Instance, creators: map<Instance, CreatorPhase>)
    requires Inv(s) && i in s.marks && s.keys.generation == s.marks[i]
    requires (creators == s.creators && !s.creators[i].Marking?) || (s.creators[i].Marking? && creators == s.creators[i := Live])
    ensures LivesInv(s.body, Landed(s.history, i))
    ensures Grows(s.body, s.history, s.body, Landed(s.history, i))
    ensures ShieldInv(s.body, Stamped(i), Landed(s.history, i))
    ensures CreatorsInv(creators, s.creates, s.marks - {i}, Landed(s.history, i))
  {
    hide TearersInv, PinsInv, JoinsInv;
    assert CreatorInv(s.creators[i], i, s.creates, s.marks, s.history);
  }

  lemma FewerPins(creators: map<Instance, CreatorPhase>, marks: map<Instance, Generation>, h: History, i: Instance, phase: CreatorPhase)
    requires PinsInv(creators, marks, h) && i in creators && !phase.Pinned?
    ensures PinsInv(creators[i := phase], marks - {i}, h) && PinsInv(creators, marks - {i}, h)
  {
    hide OnTimePin;
  }

  lemma DeclinedMarkKeeps(s: System, i: Instance)
    requires Inv(s) && i in s.marks && s.keys.generation != s.marks[i]
    ensures var t := LandMarkStep(s, i); CreatorsInv(t.creators, t.creates, t.marks, t.history)
  {
    hide LivesInv, ShieldInv, TearersInv, PinsInv, JoinsInv;
    assert CreatorInv(s.creators[i], i, s.creates, s.marks, s.history);
  }

  lemma LandMarkKeeps(s: System, i: Instance)
    requires Inv(s)
    ensures Inv(LandMarkStep(s, i))
  {
    if i in s.marks {
      var t := LandMarkStep(s, i);
      assert i in s.creators;
      hide LivesInv, CreatorsInv, ShieldInv, TearersInv, PinsInv, Grows;
      if s.keys.generation == s.marks[i] {
        StampKeeps(s, i, t.creators);
        PinsKept(s.creators, s.marks, s.body, s.history, t.body, t.history);
        FewerPins(s.creators, s.marks, t.history, i, Live);
        TearersKept(s.tearers, s.teardowns, s.body, s.history, t.body, t.history);
      } else {
        DeclinedMarkKeeps(s, i);
        FewerPins(s.creators, s.marks, s.history, i, GaveUp);
      }
    }
  }

  lemma PinForStampKeeps(s: System, i: Instance)
    requires Inv(s)
    ensures Inv(PinForStampStep(s, i))
  {
    if i in s.creators && s.creators[i].Built? {
      var t := PinForStampStep(s, i);
      assert CreatorInv(s.creators[i], i, s.creates, s.marks, s.history);
      assert OnTimePin(s.keys.generation, i, t.history);
      assert CreatorsInv(t.creators, t.creates, t.marks, t.history);
      assert LivesInv(t.body, t.history) && ShieldInv(t.body, t.keys.generation, t.history);
      hide CreatorsInv, JoinsInv, LivesInv, ShieldInv;
      TearersKept(s.tearers, s.teardowns, s.body, s.history, t.body, t.history);
      PinsKept(s.creators, s.marks, s.body, s.history, t.body, t.history);
    }
  }

  /** The other steps of a creator only move its own phase and its commands. */
  lemma PhaseKeeps(s: System, e: CreatorEvent)
    requires Inv(s) && !e.LandCreate? && !e.LandMark? && !e.PinForStamp?
    ensures Inv(CreatorStep(s, e))
  {
    hide LivesInv, ShieldInv, TearersInv, JoinsInv;
    assert e.i in s.creators ==> CreatorInv(s.creators[e.i], e.i, s.creates, s.marks, s.history);
  }

  lemma CreatorStepKeeps(s: System, e: CreatorEvent)
    requires Inv(s)
    ensures Inv(CreatorStep(s, e))
  {
    hide Inv, LandCreateStep, LandMarkStep, PinForStampStep;
    match e {
      case LandCreate(i) => LandCreateKeeps(s, i);
      case LandMark(i) => LandMarkKeeps(s, i);
      case PinForStamp(i) => PinForStampKeeps(s, i);
      case _ => PhaseKeeps(s, e);
    }
  }

  lemma KillKeeps(s: System)
    requires Inv(s)
    ensures Inv(KillBody(s))
  {
    if s.body.Room? {
      var t := KillBody(s);
      assert LivesInv(t.body, t.history);
      hide LivesInv, JoinsInv;
      TearersKept(s.tearers, s.teardowns, s.body, s.history, t.body, t.history);
      PinsKept(s.creators, s.marks, s.body, s.history, t.body, t.history);
    }
  }

  lemma ExpiryKeeps(s: System, expired: bool)
    requires Inv(s) && s.body.Room?
    ensures Inv(s.(body := Room(s.body.instance, expired)))
  {
    hide CreatorsInv, PinsInv, JoinsInv;
  }

  lemma BodyStepKeeps(s: System, e: BodyEvent)
    requires Inv(s)
    ensures Inv(BodyStep(s, e))
  {
    hide LivesInv, CreatorsInv, ShieldInv, TearersInv, PinsInv, JoinsInv, KillBody;
    match e {
      case LandExpire(i) => if Holds(s.body, i) { ExpiryKeeps(s, true); }
      case LandClose(i) => KillKeeps(s.(closes := s.closes - {i}));
      case CollectExpired => KillKeeps(s);
      case UpdateBody(expired) => if s.body.Room? { ExpiryKeeps(s, expired); }
      case RequestClose(_) =>
    }
  }

  /** Seeing no body after the pin is what makes the pin stale for good. */
  lemma TearersMove(s: System, e: TearerEvent)
    requires Inv(s) && !e.LandTeardown?
    ensures var t := TearerStep(s, e); TearersInv(t.tearers, t.teardowns, t.body, t.history)
  {
    hide CreatorsInv, PinsInv, JoinsInv;
    assert e.c in s.tearers ==> TearerInv(s.tearers[e.c], s.body, s.history);
  }

  lemma LandTeardownKeeps(s: System, c: Caller)
    requires Inv(s)
    ensures Inv(TearerStep(s, LandTeardown(c)))
  {
    hide LivesInv, CreatorsInv, PinsInv;
    assert c in s.teardowns ==> StalePin(s.teardowns[c], s.body, s.history);
  }

  lemma TearerStepKeeps(s: System, e: TearerEvent)
    requires Inv(s)
    ensures Inv(TearerStep(s, e))
  {
    if e.LandTeardown? {
      LandTeardownKeeps(s, e.c);
      hide TearerStep;
    } else {
      TearersMove(s, e);
    }
    hide LivesInv, CreatorsInv, ShieldInv, TearersInv, PinsInv, JoinsInv;
  }

  lemma IndexStepKeeps(s: System, e: IndexEvent)
    requires Inv(s)
    ensures Inv(IndexStep(s, e))
  {
    hide LivesInv, CreatorsInv, ShieldInv, TearersInv, PinsInv;
  }

  lemma InvStep(s: System, e: Event)
    requires Inv(s)
    ensures Inv(Apply(s, e))
  {
    hide Inv, CreatorStep, BodyStep, TearerStep, IndexStep;
    match e {
      case Creator(ce) => CreatorStepKeeps(s, ce);
      case Stored(be) => BodyStepKeeps(s, be);
      case Tearer(te) => TearerStepKeeps(s, te);
      case Index(ie) => IndexStepKeeps(s, ie);
    }
  }

  lemma {:induction false} InvRun(s: System, es: seq<Event>)
    requires Inv(s)
    ensures Inv(Run(s, es))
    decreases |es|
  {
    hide Inv, Apply;
    if es != [] {
      InvStep(s, es[0]);
      InvRun(Apply(s, es[0]), es[1..]);
    }
  }

  lemma InitialInv(s: System)
    requires Initial(s)
    ensures Inv(s)
  {
  }

  // ---- What each group of steps leaves alone ----

  predicate StampedAndAlive(s: System) {
    s.body.Room? && s.body.instance in s.history.landedAt
  }

  predicate IsLandMark(e: Event) { e.Creator? && e.ce.LandMark? }

  predicate IsLandCreate(e: Event) { e.Creator? && e.ce.LandCreate? }

  predicate IsLandTeardown(e: Event) { e.Tearer? && e.te.LandTeardown? }

  lemma CreatorHistory(s: System, e: CreatorEvent)
    ensures CreatorStep(s, e).history.dead == s.history.dead
    ensures s.history.latePins <= CreatorStep(s, e).history.latePins
    ensures s.history.landedAt.Keys <= CreatorStep(s, e).history.landedAt.Keys
    ensures !e.LandMark? ==> CreatorStep(s, e).history.landedAt == s.history.landedAt
  {
    match e {
      case LandCreate(_) => hide LandMarkStep, PinForStampStep;
      case LandMark(_) => hide LandCreateStep, PinForStampStep, Mark;
      case _ => hide LandCreateStep, LandMarkStep, Holds;
    }
  }

  lemma KillHistory(s: System)
    ensures s.history.dead <= KillBody(s).history.dead
    ensures KillBody(s).history.landedAt == s.history.landedAt && KillBody(s).history.latePins == s.history.latePins
  {
  }

  lemma BodyHistory(s: System, e: BodyEvent)
    ensures s.history.dead <= BodyStep(s, e).history.dead
    ensures BodyStep(s, e).history.landedAt == s.history.landedAt
    ensures BodyStep(s, e).history.latePins == s.history.latePins
  {
    hide KillBody, Holds;
    KillHistory(s);
    if e.LandClose? {
      KillHistory(s.(closes := s.closes - {e.i}));
    }
  }

  lemma TearerHistory(s: System, e: TearerEvent)
    ensures TearerStep(s, e).history == s.history
  {
  }

  lemma IndexHistory(s: System, e: IndexEvent)
    ensures IndexStep(s, e).history == s.history
  {
  }

  lemma HistoryStep(s: System, e: Event)
    ensures s.history.dead <= Apply(s, e).history.dead
    ensures s.history.latePins <= Apply(s, e).history.latePins
    ensures s.history.landedAt.Keys <= Apply(s, e).history.landedAt.Keys
    ensures !IsLandMark(e) ==> Apply(s, e).history.landedAt == s.history.landedAt
  {
    hide CreatorStep, BodyStep, TearerStep, IndexStep;
    match e {
      case Creator(ce) => CreatorHistory(s, ce);
      case Stored(be) => BodyHistory(s, be);
      case Tearer(te) => TearerHistory(s, te);
      case Index(ie) => IndexHistory(s, ie);
    }
  }

  lemma CreatorFrame(s: System, e: CreatorEvent)
    ensures var t := CreatorStep(s, e);
            && (s.body.Room? || !e.LandCreate? ==> t.body == s.body)
            && t.keys.sessions == s.keys.sessions && t.joins == s.joins
            && (!e.LandMark? ==> t.keys == s.keys)
  {
    hide LandCreateStep, LandMarkStep, Holds;
    match e {
      case LandCreate(i) => LandCreateFrame(s, i);
      case LandMark(i) => LandMarkFrame(s, i);
      case _ =>
    }
  }

  lemma LandCreateFrame(s: System, i: Instance)
    ensures var t := LandCreateStep(s, i); (s.body.Room? ==> t.body == s.body) && t.keys == s.keys && t.joins == s.joins
  {
    hide Born;
  }

  lemma LandMarkFrame(s: System, i: Instance)
    ensures var t := LandMarkStep(s, i); t.body == s.body && t.keys.sessions == s.keys.sessions && t.joins == s.joins
  {
    hide Landed;
  }

  lemma StoredFrame(s: System, e: BodyEvent)
    ensures var t := BodyStep(s, e);
            && (s.body.Room? ==> s.body.instance in t.history.dead || Holds(t.body, s.body.instance))
            && (t.body.Room? ==> Holds(s.body, t.body.instance))
            && t.keys == s.keys && t.joins == s.joins
  {
  }

  lemma TearerFrame(s: System, e: TearerEvent)
    ensures var t := TearerStep(s, e);
            t.body == s.body && t.joins == s.joins && (!e.LandTeardown? ==> t.keys == s.keys)
  {
    hide DeleteKeys;
  }

  lemma IndexFrame(s: System, e: IndexEvent)
    ensures var t := IndexStep(s, e);
            && t.body == s.body && t.keys.generation == s.keys.generation
            && (forall x <- s.keys.sessions :: e == LeaveIndex(x) || x in t.keys.sessions)
            && (forall j <- s.joins :: j in t.joins && t.joins[j] == s.joins[j])
  {
  }

  lemma Frame(s: System, e: Event)
    ensures var t := Apply(s, e);
            && (s.body.Room? ==> s.body.instance in t.history.dead || Holds(t.body, s.body.instance))
            && (!IsLandCreate(e) && t.body.Room? ==> Holds(s.body, t.body.instance))
            && (!IsLandMark(e) && !IsLandTeardown(e) ==> t.keys.generation == s.keys.generation)
            && (!IsLandTeardown(e) ==> forall x <- s.keys.sessions :: e == Index(LeaveIndex(x)) || x in t.keys.sessions)
            && (forall j <- s.joins :: j in t.joins && t.joins[j] == s.joins[j])
  {
    hide CreatorStep, BodyStep, TearerStep, IndexStep;
    match e {
      case Creator(ce) => CreatorFrame(s, ce);
      case Stored(be) => StoredFrame(s, be);
      case Tearer(te) => TearerFrame(s, te);
      case Index(ie) => IndexFrame(s, ie);
    }
  }

  // ---- A teardown never reaches a living stamped room ----

  lemma StaleDeleteDeclines(s: System, c: Caller)
    requires Inv(s) && c in s.teardowns && StampedAndAlive(s)
    ensures s.teardowns[c] != s.keys.generation
  {
    assert StalePin(s.teardowns[c], s.body, s.history);
  }

  /** However late it lands, no teardown clears the runtime keys of a stamped room whose body exists. */
  lemma TeardownSparesStampedRooms(s0: System, es: seq<Event>, c: Caller)
    requires Initial(s0)
    ensures var s := Run(s0, es);
            c in s.teardowns && StampedAndAlive(s) ==> Apply(s, Tearer(LandTeardown(c))).keys == s.keys
  {
    hide Inv;
    InitialInv(s0);
    InvRun(s0, es);
    var s := Run(s0, es);
    if c in s.teardowns && StampedAndAlive(s) {
      StaleDeleteDeclines(s, c);
    }
  }

  lemma {:induction false} DeadStayDead(s: System, i: Instance, more: seq<Event>)
    requires Inv(s) && i in s.history.dead
    ensures !Holds(Run(s, more).body, i)
    decreases |more|
  {
    if more == [] {
      assert LivesInv(s.body, s.history);
    } else {
      hide Inv, Apply;
      InvStep(s, more[0]);
      HistoryStep(s, more[0]);
      DeadStayDead(Apply(s, more[0]), i, more[1..]);
    }
  }

  /** A delete in flight that is pinned to a stamp names an instance whose body is gone for good. */
  lemma PinnedDeleteMeansGoneForGood(s0: System, es: seq<Event>, c: Caller, more: seq<Event>)
    requires Initial(s0)
    ensures var s := Run(s0, es);
            c in s.teardowns && s.teardowns[c].Stamped? ==> !Holds(Run(s, more).body, s.teardowns[c].owner)
  {
    InitialInv(s0);
    InvRun(s0, es);
    var s := Run(s0, es);
    if c in s.teardowns && s.teardowns[c].Stamped? {
      assert StalePin(s.teardowns[c], s.body, s.history);
      DeadStayDead(s, s.teardowns[c].owner, more);
    }
  }

  /** A session indexed in a stamped room stays indexed for as long as that room's body exists,
      unless it leaves by itself, whatever older instances of the code still have in flight. */
  lemma {:induction false} SessionOutlivesStaleCommands(s: System, x: Session, es: seq<Event>)
    requires Inv(s) && StampedAndAlive(s) && x in s.keys.sessions
    requires Index(LeaveIndex(x)) !in es
    requires Holds(Run(s, es).body, s.body.instance)
    ensures x in Run(s, es).keys.sessions
    decreases |es|
  {
    if es != [] {
      var e := es[0];
      InvStep(s, e);
      HistoryStep(s, e);
      Frame(s, e);
      if IsLandTeardown(e) && e.te.c in s.teardowns {
        StaleDeleteDeclines(s, e.te.c);
      }
      hide Inv;
      if s.body.instance in Apply(s, e).history.dead {
        DeadStayDead(Apply(s, e), s.body.instance, es[1..]);
        assert false;
      }
      SessionOutlivesStaleCommands(Apply(s, e), x, es[1..]);
    }
  }

  // ---- Generations never come back (no ABA) ----

  /** The key holds something else now, and `p` can no longer be written to it. */
  predicate Spent(s: System, p: Generation) {
    && s.keys.generation != p
    && match p
       case Absent => true
       case Stamped(i) => i in s.history.landedAt
       case Tombstone => false
  }

  lemma MarkTakesEffect(s: System, j: Instance)
    ensures Apply(s, Creator(LandMark(j))).keys.generation ==
            if j in s.marks && s.marks[j] == s.keys.generation then Stamped(j) else s.keys.generation
  {
    hide LandCreateStep, PinForStampStep;
  }

  lemma TeardownTakesEffect(s: System, c: Caller)
    ensures Apply(s, Tearer(LandTeardown(c))).keys.generation ==
            if c in s.teardowns && s.teardowns[c] == s.keys.generation then Tombstone else s.keys.generation
  {
  }

  lemma SpentStep(s: System, e: Event, p: Generation)
    requires Inv(s) && Spent(s, p)
    ensures Spent(Apply(s, e), p)
  {
    hide Inv, Apply;
    HistoryStep(s, e);
    Frame(s, e);
    if IsLandMark(e) {
      MarkIsFresh(s, e.ce.i);
      MarkTakesEffect(s, e.ce.i);
    } else if IsLandTeardown(e) {
      TeardownTakesEffect(s, e.te.c);
    }
  }

  lemma MarkIsFresh(s: System, i: Instance)
    requires Inv(s)
    ensures i in s.marks ==> i !in s.history.landedAt
  {
    if i in s.marks {
      assert CreatorInv(s.creators[i], i, s.creates, s.marks, s.history);
    }
  }

  lemma {:induction false} SpentRun(s: System, es: seq<Event>, p: Generation)
    requires Inv(s) && Spent(s, p)
    ensures Spent(Run(s, es), p)
    decreases |es|
  {
    hide Inv, Apply, Spent;
    if es != [] {
      InvStep(s, es[0]);
      SpentStep(s, es[0], p);
      SpentRun(Apply(s, es[0]), es[1..], p);
    }
  }

  lemma LeavingIsForGood(s: System, e: Event)
    requires Inv(s) && !s.keys.generation.Tombstone?
    ensures Apply(s, e).keys.generation == s.keys.generation || Spent(Apply(s, e), s.keys.generation)
  {
    HistoryStep(s, e);
    assert ShieldInv(s.body, s.keys.generation, s.history);
    hide Inv, Apply;
  }

  /** If the key ends a run holding what it held at the start, a stamp or nothing, it held that throughout. */
  lemma {:induction false} SameValueMeansUnchanged(s: System, es: seq<Event>, n: nat)
    requires Inv(s) && !s.keys.generation.Tombstone? && n <= |es|
    requires Run(s, es).keys.generation == s.keys.generation
    ensures Run(s, es[..n]).keys.generation == s.keys.generation
    decreases |es|
  {
    if n > 0 {
      var t := Apply(s, es[0]);
      InvStep(s, es[0]);
      LeavingIsForGood(s, es[0]);
      hide Inv, Apply;
      if t.keys.generation != s.keys.generation {
        SpentRun(t, es[1..], s.keys.generation);
        assert false;
      }
      SameValueMeansUnchanged(t, es[1..], n - 1);
      assert es[..n][1..] == es[1..][..n - 1];
    }
  }

  lemma {:induction false} JoinPinKept(s: System, es: seq<Event>, j: JoinId)
    requires j in s.joins
    ensures j in Run(s, es).joins && Run(s, es).joins[j] == s.joins[j]
    decreases |es|
  {
    if es != [] {
      Frame(s, es[0]);
      hide Apply;
      JoinPinKept(Apply(s, es[0]), es[1..], j);
    }
  }

  /** A pinned join changes the session index only if the generation never changed since its pin,
      for all its retries and however late it lands; a tombstone is never pinned. */
  lemma JoinLandsOnlyInItsInstance(s0: System, es: seq<Event>, j: JoinId, x: Session, more: seq<Event>, n: nat)
    requires Initial(s0) && n <= |more|
    requires j !in Run(s0, es).joins
    ensures var s := Run(s0, es);
            var t := Apply(s, Index(PinForJoin(j, x)));
            var u := Run(t, more);
            && (j in t.joins <==> !s.keys.generation.Tombstone?)
            && (j in t.joins && Apply(u, Index(LandJoin(j))).keys != u.keys ==>
                  Run(t, more[..n]).keys.generation == s.keys.generation)
  {
    hide Inv;
    InitialInv(s0);
    InvRun(s0, es);
    var s := Run(s0, es);
    var t := Apply(s, Index(PinForJoin(j, x)));
    InvStep(s, Index(PinForJoin(j, x)));
    if j in t.joins {
      JoinPinKept(t, more, j);
      var u := Run(t, more);
      if Apply(u, Index(LandJoin(j))).keys != u.keys {
        SameValueMeansUnchanged(t, more, n);
      }
    }
  }

  /** Once the key has held anything it is never absent again. */
  lemma NeverAbsentAgain(s0: System, es: seq<Event>, more: seq<Event>)
    requires Initial(s0)
    ensures Run(s0, es).keys.generation != Absent ==> Run(Run(s0, es), more).keys.generation != Absent
  {
    InitialInv(s0);
    InvRun(s0, es);
    hide Inv;
    if Run(s0, es).keys.generation != Absent {
      SpentRun(Run(s0, es), more, Absent);
    }
  }

  lemma TombstoneMeansEmptyIndex(s0: System, es: seq<Event>)
    requires Initial(s0)
    ensures Run(s0, es).keys.generation == Tombstone ==> Run(s0, es).keys.sessions == {}
  {
    InitialInv(s0);
    InvRun(s0, es);
    assert JoinsInv(Run(s0, es).joins, Run(s0, es).keys);
  }

  // ---- What a command that lands does ----

  /** A landing join indexes its session and lists the code exactly when the generation is still the one it pinned. */
  lemma LandedJoinIndexes(s: System, j: JoinId)
    requires j in s.joins
    ensures var t := Apply(s, Index(LandJoin(j)));
            && (forall x :: x in t.keys.sessions <==> x in s.keys.sessions || (s.joins[j].pin == s.keys.generation && x == s.joins[j].session))
            && (t.keys.listed <==> s.keys.listed || s.joins[j].pin == s.keys.generation)
            && t.keys.generation == s.keys.generation && t.keys.entries == s.keys.entries
  {
  }

  /** A session that leaves is indexed no more, an unlisted code is not listed and a written key holds what was written;
      nobody else's place, and nothing else of the room, changes with it. */
  lemma OtherWritersTouchTheirOwn(s: System, x: Session, key: RoomKey, written: set<nat>)
    ensures var t := Apply(s, Index(LeaveIndex(x)));
            && (forall y :: y in t.keys.sessions <==> y in s.keys.sessions && y != x)
            && t == s.(keys := s.keys.(sessions := t.keys.sessions))
    ensures var t := Apply(s, Index(Unlist)); !t.keys.listed && t == s.(keys := s.keys.(listed := t.keys.listed))
    ensures var t := Apply(s, Index(WriteKey(key, written)));
            && key in t.keys.entries && t.keys.entries[key] == written && t.keys.entries - {key} == s.keys.entries - {key}
            && t == s.(keys := s.keys.(entries := t.keys.entries))
  {
  }

  /** A session that joined a stamped living room stays indexed while that room lives and it does not leave. */
  lemma JoinedSessionStays(s0: System, es: seq<Event>, j: JoinId, more: seq<Event>)
    requires Initial(s0)
    requires var s := Run(s0, es); j in s.joins && s.joins[j].pin == s.keys.generation && StampedAndAlive(s)
                                   && Index(LeaveIndex(s.joins[j].session)) !in more
                                   && Holds(Run(Apply(s, Index(LandJoin(j))), more).body, s.body.instance)
    ensures var s := Run(s0, es); s.joins[j].session in Run(Apply(s, Index(LandJoin(j))), more).keys.sessions
  {
    InitialInv(s0);
    InvRun(s0, es);
    var s := Run(s0, es);
    var e := Index(LandJoin(j));
    InvStep(s, e);
    LandedJoinIndexes(s, j);
    assert Apply(s, e).body == s.body && Apply(s, e).history == s.history;
    hide Run, Apply, Inv;
    SessionOutlivesStaleCommands(Apply(s, e), s.joins[j].session, more);
  }

  /** An applied teardown leaves no session, seat, token, clock, block or slot, and unlists the code; a declined one
      changes nothing. */
  lemma LandedTeardownClears(s: System, c: Caller)
    requires c in s.teardowns
    ensures var t := Apply(s, Tearer(LandTeardown(c)));
            if s.teardowns[c] == s.keys.generation
            then t.keys.generation == Tombstone && t.keys.sessions == {} && t.keys.entries.Keys == {} && !t.keys.listed
            else t.keys == s.keys
  {
  }

  /** A tearer issues its delete exactly when it saw no body after its pin and the generation is still that pin. */
  lemma TeardownIssuedIff(s: System, e: TearerEvent, c: Caller)
    ensures var t := TearerStep(s, e);
            && (c in t.teardowns <==>
                  || (c in s.teardowns && e != LandTeardown(c))
                  || (e == ConfirmGeneration(c) && c in s.tearers && s.tearers[c] == SawNoBody(s.keys.generation)))
            && (e == ConfirmGeneration(c) && c in s.tearers && s.tearers[c] == SawNoBody(s.keys.generation) ==>
                  t.teardowns[c] == s.keys.generation)
  {
    hide DeleteKeys;
  }

  /** A tearer comes to hold an absent body only by looking after its pin, and pins what the key holds when it starts. */
  lemma TearerAdvancesIff(s: System, e: TearerEvent, c: Caller, p: Generation)
    ensures var t := TearerStep(s, e);
            && (c in t.tearers && t.tearers[c] == SawNoBody(p) <==>
                  || (c in s.tearers && s.tearers[c] == SawNoBody(p) && e != ConfirmGeneration(c))
                  || (e == ObserveBody(c) && c in s.tearers && s.tearers[c] == PinnedGeneration(p) && s.body.NoBody?))
            && (c in t.tearers && t.tearers[c] == PinnedGeneration(p) <==>
                  || (c in s.tearers && s.tearers[c] == PinnedGeneration(p) && e != ObserveBody(c))
                  || (e == StartTeardown(c) && c !in s.tearers && p == s.keys.generation))
  {
    hide DeleteKeys;
  }

  lemma RunSnoc(s: System, es: seq<Event>, e: Event)
    ensures Run(s, es + [e]) == Apply(Run(s, es), e)
  {
    RunConcat(s, es, [e]);
    assert [e][1..] == [];
    hide Apply;
    assert Run(Run(s, es), [e]) == Run(Apply(Run(s, es), e), []);
  }

  /** A create that lands makes a room where there is none and leaves a living one alone; a creator that still waits
      for it learns which. */
  lemma LandedCreateAnswers(s: System, i: Instance)
    requires i in s.creates
    ensures var t := Apply(s, Creator(LandCreate(i)));
            && i !in t.creates && t.keys == s.keys
            && t.body == (if s.body.NoBody? then Room(i, false) else s.body)
            && (i in s.creators && s.creators[i].Creating? ==>
                  i in t.creators && t.creators[i] == if s.body.NoBody? then Built else GaveUp)
  {
  }

  lemma CreationBuilds(s: System, i: Instance)
    requires s.body.NoBody? && i !in s.creators && i !in s.history.bornAt
    ensures var s2 := CreatorStep(CreatorStep(s, StartCreate(i)), LandCreate(i));
            s2.body == Room(i, false) && i in s2.creators && s2.creators[i] == Built
  {
  }

  lemma StampingLands(s: System, i: Instance)
    requires s.body == Room(i, false) && i in s.creators && s.creators[i] == Built
    ensures var t := CreatorStep(CreatorStep(CreatorStep(s, PinForStamp(i)), IssueMark(i)), LandMark(i));
            && t.body == Room(i, false) && t.keys.generation == Stamped(i)
            && i in t.creators && t.creators[i] == Live && StampedAndAlive(t)
  {
    var s3 := CreatorStep(s, PinForStamp(i));
    assert s3.body == s.body && s3.creators[i] == Pinned(s.keys.generation) && s3.keys == s.keys;
    var s4 := CreatorStep(s3, IssueMark(i));
    assert s4.body == s.body && s4.creators[i] == Marking && s4.marks[i] == s.keys.generation && s4.keys == s.keys;
  }

  /** A creator whose code is free and whom nobody disturbs ends with its room in place under its own stamp. */
  lemma UndisturbedCreation(s: System, i: Instance)
    requires s.body.NoBody? && i !in s.creators && i !in s.history.bornAt
    ensures var t := Run(s, [Creator(StartCreate(i)), Creator(LandCreate(i)), Creator(PinForStamp(i)),
                             Creator(IssueMark(i)), Creator(LandMark(i))]);
            t.body == Room(i, false) && t.keys.generation == Stamped(i) && i in t.creators && t.creators[i] == Live && StampedAndAlive(t)
  {
    hide CreatorStep;
    CreationBuilds(s, i);
    var s2 := CreatorStep(CreatorStep(s, StartCreate(i)), LandCreate(i));
    StampingLands(s2, i);
    RunTwo(s, Creator(StartCreate(i)), Creator(LandCreate(i)));
    RunThree(s2, Creator(PinForStamp(i)), Creator(IssueMark(i)), Creator(LandMark(i)));
    RunConcat(s, [Creator(StartCreate(i)), Creator(LandCreate(i))], [Creator(PinForStamp(i)), Creator(IssueMark(i)), Creator(LandMark(i))]);
    assert [Creator(StartCreate(i)), Creator(LandCreate(i)), Creator(PinForStamp(i)), Creator(IssueMark(i)), Creator(LandMark(i))] ==
           [Creator(StartCreate(i)), Creator(LandCreate(i))] + [Creator(PinForStamp(i)), Creator(IssueMark(i)), Creator(LandMark(i))];
  }

  lemma RunTwo(s: System, a: Event, b: Event)
    ensures Run(s, [a, b]) == Apply(Apply(s, a), b)
  {
    hide Apply;
    assert [a, b][1..] == [b] && [b][1..] == [];
    assert Run(s, [a, b]) == Run(Apply(s, a), [b]) == Run(Apply(Apply(s, a), b), []);
  }

  /** A teardown of a code without a body that nobody disturbs clears its runtime keys. */
  lemma UndisturbedTeardown(s: System, c: Caller)
    requires s.body.NoBody? && c !in s.tearers
    ensures var t := Run(s, [Tearer(StartTeardown(c)), Tearer(ObserveBody(c)), Tearer(ConfirmGeneration(c)), Tearer(LandTeardown(c))]);
            t.keys.generation == Tombstone && t.keys.sessions == {} && t.keys.entries.Keys == {} && !t.keys.listed
  {
    var s1 := TearerStep(s, StartTeardown(c));
    var s2 := TearerStep(s1, ObserveBody(c));
    assert s2.tearers[c] == SawNoBody(s.keys.generation) && s2.keys == s.keys;
    var s3 := TearerStep(s2, ConfirmGeneration(c));
    assert s3.teardowns[c] == s3.keys.generation;
    LandedTeardownClears(s3, c);
    hide TearerStep;
    RunTwo(s, Tearer(StartTeardown(c)), Tearer(ObserveBody(c)));
    RunTwo(s2, Tearer(ConfirmGeneration(c)), Tearer(LandTeardown(c)));
    RunConcat(s, [Tearer(StartTeardown(c)), Tearer(ObserveBody(c))], [Tearer(ConfirmGeneration(c)), Tearer(LandTeardown(c))]);
    assert [Tearer(StartTeardown(c)), Tearer(ObserveBody(c)), Tearer(ConfirmGeneration(c)), Tearer(LandTeardown(c))] ==
           [Tearer(StartTeardown(c)), Tearer(ObserveBody(c))] + [Tearer(ConfirmGeneration(c)), Tearer(LandTeardown(c))];
  }

  /** A join that nobody disturbs indexes its session, unless the code was torn down and not stamped again. */
  lemma UndisturbedJoin(s: System, j: JoinId, x: Session)
    requires !s.keys.generation.Tombstone? && j !in s.joins
    ensures var t := Run(s, [Index(PinForJoin(j, x)), Index(LandJoin(j))]); x in t.keys.sessions && t.keys.listed
  {
    var s1 := IndexStep(s, PinForJoin(j, x));
    LandedJoinIndexes(s1, j);
    RunTwo(s, Index(PinForJoin(j, x)), Index(LandJoin(j)));
  }

  /** A creator that gives up, or finds its pin gone, leaves an expiry on its way that reaches its own room alone. */
  lemma RollbackIsIssued(s: System, i: Instance)
    requires i in s.creators
    ensures s.creators[i].Creating? ==> i in Apply(s, Creator(AbandonCreate(i))).expires
    ensures s.creators[i].Marking? ==> i in Apply(s, Creator(AbandonMark(i))).expires
    ensures s.creators[i].Marking? && i in s.marks && s.marks[i] != s.keys.generation ==>
              var t := Apply(s, Creator(LandMark(i))); i in t.expires && t.creators[i].GaveUp? && t.keys == s.keys
  {
    hide LandCreateStep, PinForStampStep;
  }

  /** What ends a room: an expiry that lands marks that instance's room and no other, a collection removes what is
      marked, and a close removes that instance's room and no other. */
  lemma BodiesEndIff(s: System, e: BodyEvent, i: Instance)
    requires Holds(s.body, i)
    ensures var t := BodyStep(s, e);
            && (t.body.NoBody? <==> (e == LandClose(i) && i in s.closes) || (e.CollectExpired? && s.body.expired))
            && (t.body.Room? ==> t.body.instance == i)
            && (t.body.Room? && !e.UpdateBody? ==> (t.body.expired <==> s.body.expired || (e == LandExpire(i) && i in s.expires)))
            && (e.UpdateBody? ==> t.body == Room(i, e.expired))
  {
  }

  // ---- Whose stamp a living room sits under ----

  lemma RestampIsLate(s: System, j: Instance)
    requires Inv(s) && j in s.marks && StampedAndAlive(s) && j != s.body.instance
    ensures s.marks[j] == s.keys.generation ==> j in s.history.latePins
  {
    assert CreatorInv(s.creators[j], j, s.creates, s.marks, s.history);
    assert OnTimePin(s.marks[j], j, s.history);
  }

  /** A stamp of another instance that lands over a stamped living room changes the generation exactly when
      its pin is that generation, and then its creator pinned after its own body was gone. */
  lemma OnlyLatePinsRestamp(s0: System, es: seq<Event>, j: Instance)
    requires Initial(s0)
    ensures var s := Run(s0, es);
            j in s.marks && StampedAndAlive(s) && j != s.body.instance ==>
              && (Apply(s, Creator(LandMark(j))).keys.generation != s.keys.generation <==> s.marks[j] == s.keys.generation)
              && (s.marks[j] == s.keys.generation ==> j in s.history.latePins)
  {
    InitialInv(s0);
    InvRun(s0, es);
    var s := Run(s0, es);
    hide Run, Inv, Apply;
    if j in s.marks && StampedAndAlive(s) && j != s.body.instance {
      RestampIsLate(s, j);
      CurrentStampLanded(s);
      MarkIsFresh(s, j);
      MarkTakesEffect(s, j);
    }
  }

  lemma CurrentStampLanded(s: System)
    requires Inv(s)
    ensures s.keys.generation.Stamped? ==> s.keys.generation.owner in s.history.landedAt
  {
    assert ShieldInv(s.body, s.keys.generation, s.history);
    hide Inv;
  }

  /** Exactly how a living room that sits under its own stamp can lose it: another creator's stamp lands that was
      pinned to it. */
  lemma StampLostOnlyToItsPin(s0: System, es: seq<Event>, e: Event)
    requires Initial(s0)
    requires var s := Run(s0, es); StampedAndAlive(s) && s.keys.generation == Stamped(s.body.instance)
    ensures var s := Run(s0, es);
            Apply(s, e).keys.generation != s.keys.generation <==>
              IsLandMark(e) && e.ce.i in s.marks && s.marks[e.ce.i] == s.keys.generation
  {
    InitialInv(s0);
    InvRun(s0, es);
    var s := Run(s0, es);
    hide Run, Inv, Apply;
    Frame(s, e);
    if IsLandMark(e) {
      MarkIsFresh(s, e.ce.i);
      MarkTakesEffect(s, e.ce.i);
    } else if IsLandTeardown(e) {
      TeardownTakesEffect(s, e.te.c);
      if e.te.c in s.teardowns {
        StaleDeleteDeclines(s, e.te.c);
      }
    }
  }

  predicate OwnStamp(s: System) {
    StampedAndAlive(s) && s.history.latePins == {} ==> s.keys.generation == Stamped(s.body.instance)
  }

  lemma OwnStampMark(s: System, i: Instance)
    requires Inv(s) && OwnStamp(s)
    ensures OwnStamp(LandMarkStep(s, i))
  {
    if i in s.marks && StampedAndAlive(s) && i != s.body.instance {
      RestampIsLate(s, i);
    }
    hide Inv;
  }

  lemma OwnStampStep(s: System, e: Event)
    requires Inv(s) && OwnStamp(s)
    ensures OwnStamp(Apply(s, e))
  {
    hide Inv;
    HistoryStep(s, e);
    Frame(s, e);
    if IsLandMark(e) {
      OwnStampMark(s, e.ce.i);
    } else if IsLandTeardown(e) {
      if e.te.c in s.teardowns && StampedAndAlive(s) {
        StaleDeleteDeclines(s, e.te.c);
      }
    } else if IsLandCreate(e) {
      CreateIsUnstamped(s, e.ce.i);
      hide LandMarkStep, PinForStampStep;
    } else {
      hide Apply;
    }
  }

  lemma CreateIsUnstamped(s: System, i: Instance)
    requires Inv(s)
    ensures i in s.creates ==> i !in s.history.landedAt
  {
    if i in s.creates {
      assert CreatorInv(s.creators[i], i, s.creates, s.marks, s.history);
      assert LivesInv(s.body, s.history);
    }
  }

  lemma {:induction false} OwnStampRun(s: System, es: seq<Event>)
    requires Inv(s) && OwnStamp(s)
    ensures OwnStamp(Run(s, es))
    decreases |es|
  {
    hide Inv, OwnStamp, Apply;
    if es != [] {
      InvStep(s, es[0]);
      OwnStampStep(s, es[0]);
      OwnStampRun(Apply(s, es[0]), es[1..]);
    }
  }

  /** As long as every creator pins while its own body is still there, a stamped living room holds its own stamp. */
  lemma LivingRoomHoldsOwnStamp(s0: System, es: seq<Event>)
    requires Initial(s0)
    ensures var s := Run(s0, es);
            StampedAndAlive(s) && s.history.latePins == {} ==> s.keys.generation == Stamped(s.body.instance)
  {
    InitialInv(s0);
    hide Inv;
    OwnStampRun(s0, es);
  }

  const Unused := System(NoBody, RuntimeKeys(Absent, {}, false, map[]), map[], map[], {}, {}, {}, map[], map[], map[],
                         History(0, map[], {}, map[], {}))
  const Stalled := Unused.(creators := map[1 := Built], history := History(1, map[1 := 1], {1}, map[], {}))
  const Pinning := Stalled.(body := Room(2, false), creators := map[1 := Built, 2 := Pinned(Absent)],
                            history := History(2, map[1 := 1, 2 := 2], {1}, map[], {}))
  const Serving := Pinning.(keys := RuntimeKeys(Stamped(2), {}, false, map[]), creators := map[1 := Built, 2 := Live],
                            joins := map[7 := PinnedJoin(70, Stamped(2))],
                            history := History(2, map[1 := 1, 2 := 2], {1}, map[2 := 2], {}))
  const LateMarking := Serving.(creators := map[1 := Marking, 2 := Live], marks := map[1 := Stamped(2)],
                                history := History(2, map[1 := 1, 2 := 2], {1}, map[2 := 2], {1}))

  /** Room 1 is closed while its creator is slow; room 2 takes the code, is stamped and is joined;
      creator 1 now pins stamp 2, and its own stamp lands over the living room 2. */
  const CloseRoom1 := [Creator(StartCreate(1)), Creator(LandCreate(1)), Stored(RequestClose(1)), Stored(LandClose(1))]
  const CreateRoom2 := [Creator(StartCreate(2)), Creator(LandCreate(2)), Creator(PinForStamp(2))]
  const ServeRoom2 := [Creator(IssueMark(2)), Creator(LandMark(2)), Index(PinForJoin(7, 70))]
  const StampRoom1 := [Creator(PinForStamp(1)), Creator(IssueMark(1)), Creator(LandMark(1))]

  lemma {:induction false} RunConcat(s: System, a: seq<Event>, b: seq<Event>)
    ensures Run(s, a + b) == Run(Run(s, a), b)
    decreases |a|
  {
    if a == [] {
      assert a + b == b;
    } else {
      assert (a + b)[1..] == a[1..] + b;
      RunConcat(Apply(s, a[0]), a[1..], b);
    }
  }

  lemma RunThree(s: System, a: Event, b: Event, c: Event)
    ensures Run(s, [a, b, c]) == Apply(Apply(Apply(s, a), b), c)
  {
    hide Apply;
    assert [a, b, c][1..] == [b, c] && [b, c][1..] == [c];
    assert Run(s, [a, b, c]) == Run(Apply(s, a), [b, c]) == Run(Apply(Apply(s, a), b), [c]);
  }

  lemma ClosingStage()
    ensures Run(Unused, CloseRoom1) == Stalled
  {
    var started := Unused.(creators := map[1 := Creating], creates := {1});
    assert Apply(Unused, Creator(StartCreate(1))) == started;
    var built := Stalled.(body := Room(1, false), history := History(1, map[1 := 1], {}, map[], {}));
    assert Apply(started, Creator(LandCreate(1))) == built;
    var closing := built.(closes := {1});
    assert Apply(built, Stored(RequestClose(1))) == closing;
    assert Apply(closing, Stored(LandClose(1))) == Stalled;
    hide Apply;
    RunThree(Unused, CloseRoom1[0], CloseRoom1[1], CloseRoom1[2]);
    RunConcat(Unused, CloseRoom1[..3], CloseRoom1[3..]);
    assert CloseRoom1[..3] + CloseRoom1[3..] == CloseRoom1;
    assert Run(closing, CloseRoom1[3..]) == Stalled;
  }

  lemma CreatingStage()
    ensures Run(Stalled, CreateRoom2) == Pinning
  {
    var started := Stalled.(creators := map[1 := Built, 2 := Creating], creates := {2});
    assert Apply(Stalled, CreateRoom2[0]) == started;
    var built := Pinning.(creators := map[1 := Built, 2 := Built]);
    assert Apply(started, CreateRoom2[1]) == built;
    assert Apply(built, CreateRoom2[2]) == Pinning;
    RunThree(Stalled, CreateRoom2[0], CreateRoom2[1], CreateRoom2[2]);
  }

  lemma ServingStage()
    ensures Run(Pinning, ServeRoom2) == Serving
  {
    var marking := Pinning.(creators := map[1 := Built, 2 := Marking], marks := map[2 := Absent]);
    assert Apply(Pinning, ServeRoom2[0]) == marking;
    var stamped := Serving.(joins := map[]);
    assert Apply(marking, ServeRoom2[1]) == stamped;
    RunThree(Pinning, ServeRoom2[0], ServeRoom2[1], ServeRoom2[2]);
  }

  lemma LateStampLands()
    ensures var late := Apply(LateMarking, StampRoom1[2]);
            && late.body == Room(2, false) && 2 in late.history.landedAt
            && late.keys.generation == Stamped(1) && late.joins == Serving.joins
  {
  }

  lemma LateStage()
    ensures var s := Run(Serving, StampRoom1);
            && s.body == Room(2, false) && 2 in s.history.landedAt
            && s.keys.generation == Stamped(1) && s.joins == Serving.joins
  {
    var pinned := LateMarking.(creators := map[1 := Pinned(Stamped(2)), 2 := Live], marks := map[]);
    assert Apply(Serving, StampRoom1[0]) == pinned;
    assert Apply(pinned, StampRoom1[1]) == LateMarking;
    LateStampLands();
    hide Apply;
    RunThree(Serving, StampRoom1[0], StampRoom1[1], StampRoom1[2]);
  }

  /** Without that condition it fails: here the living room 2 ends under stamp 1, and a join pinned
      to room 2's own stamp is declined although room 2 is alive. */
  lemma LateCreatorRestampsLivingRoom()
    ensures Initial(Unused)
    ensures var s := Run(Unused, CloseRoom1 + CreateRoom2 + ServeRoom2 + StampRoom1);
            && StampedAndAlive(s) && s.body.instance == 2
            && s.keys.generation == Stamped(1)
            && 7 in s.joins && s.joins[7] == PinnedJoin(70, Stamped(2))
            && Apply(s, Index(LandJoin(7))) == s
  {
    RunConcat(Unused, CloseRoom1 + CreateRoom2 + ServeRoom2, StampRoom1);
    RunConcat(Unused, CloseRoom1 + CreateRoom2, ServeRoom2);
    RunConcat(Unused, CloseRoom1, CreateRoom2);
    hide Run;
    ClosingStage();
    CreatingStage();
    ServingStage();
    LateStage();
  }
}
