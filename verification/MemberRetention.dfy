/**
 Presence and identity of the members of a room: a disconnect takes the seat away and leaves the token behind, on a
 retention clock that is pruned lazily.
 */
module MemberRetention {
  import opened Options

  type Code = string
  type MemberId = string
  type Token = string
  type SessionId = string

  /** One room: who is seated, which token reclaims which member, and until when for those who left. */
  datatype Room = Room(members: map<MemberId, SessionId>, tokens: map<MemberId, Token>, clock: map<MemberId, int>)

  const EMPTY := Room(map[], map[], map[])

  function Expired(clock: map<MemberId, int>, now: int): set<MemberId> {
    set m | m in clock && clock[m] <= now
  }

  function Without(r: Room, gone: set<MemberId>): Room {
    r.(tokens := r.tokens - gone, clock := r.clock - gone)
  }

  function Prune(r: Room, now: int): Room {
    Without(r, Expired(r.clock, now))
  }

  lemma WithoutAgain(r: Room, gone: set<MemberId>, more: set<MemberId>)
    ensures Without(Without(r, gone), more) == Without(r, gone + more)
    ensures Without(r, {}) == r
    ensures Without(r, gone).clock.Keys == r.clock.Keys - gone
    ensures forall m <- r.clock.Keys - gone :: Without(r, gone).clock[m] == r.clock[m]
  {
  }

  function AddMember(r: Room, now: int, m: MemberId, s: SessionId, token: Token): Room {
    var p := Prune(r, now);
    Room(p.members[m := s], p.tokens[m := token], p.clock - {m})
  }

  /** Another session already took the seat over. */
  predicate Replaced(r: Room, m: MemberId, session: Option<SessionId>) {
    session.Some? && m in r.members && r.members[m] != session.value
  }

  /** The clock is read twice: for pruning, and again for the deadline. */
  function RemoveMember(r: Room, now: int, later: int, retention: int, m: MemberId, session: Option<SessionId>): Room {
    var p := Prune(r, now);
    if Replaced(p, m, session) || m !in p.members then p
    else p.(members := p.members - {m}, clock := if m in p.tokens then p.clock[m := later + retention] else p.clock)
  }

  function Revoke(r: Room, m: MemberId, session: Option<SessionId>): Room {
    if Replaced(r, m, session) || m !in r.tokens then r
    else r.(tokens := r.tokens - {m}, clock := r.clock - {m})
  }

  /** The members this token reclaims. */
  function Holders(tokens: map<MemberId, Token>, token: Token): set<MemberId> {
    set m | m in tokens && tokens[m] == token
  }

  /** What a lookup at `now` may answer. */
  predicate Resolves(r: Room, now: int, token: Token, found: Option<MemberId>) {
    var holders := Holders(Prune(r, now).tokens, token);
    if found.Some? then found.value in holders else holders == {}
  }

  /** `gone` are the expired identities among the entries already passed. */
  predicate Passed(clock: map<MemberId, int>, now: int, gone: set<MemberId>, entries: set<MemberId>) {
    entries <= clock.Keys && gone !! entries && gone <= Expired(clock, now) <= gone + entries
  }

  lemma PassOne(clock: map<MemberId, int>, now: int, gone: set<MemberId>, entries: set<MemberId>, m: MemberId)
    requires Passed(clock, now, gone, entries) && m in entries
    ensures m in clock && m !in gone
    ensures Passed(clock, now, if clock[m] <= now then gone + {m} else gone, entries - {m})
  {
  }

  lemma PassedAll(clock: map<MemberId, int>, now: int, gone: set<MemberId>)
    ensures Passed(clock, now, gone, {}) ==> gone == Expired(clock, now)
    ensures Passed(clock, now, {}, clock.Keys)
  {
  }

  // ---- The store, changed in place ----

  datatype ActiveRoom = ActiveRoom(members: map<MemberId, SessionId>, memberTokens: map<MemberId, Token>)

  class RuntimeStore {
    const retention: int
    var rooms: map<Code, ActiveRoom>
    var expiryByRoom: map<Code, map<MemberId, int>>

    function View(code: Code): Room
      reads this
    {
      var room := if code in rooms then rooms[code] else ActiveRoom(map[], map[]);
      Room(room.members, room.memberTokens, if code in expiryByRoom then expiryByRoom[code] else map[])
    }

    constructor (memberTokenRetentionMs: int)
      ensures retention == memberTokenRetentionMs && forall code :: View(code) == EMPTY
    {
      retention := memberTokenRetentionMs;
      rooms, expiryByRoom := map[], map[];
    }

    method Forget(code: Code, m: MemberId)
      modifies `rooms
      ensures View(code) == old(View(code)).(tokens := old(View(code)).tokens - {m})
      ensures forall c | c != code :: View(c) == old(View(c))
    {
      if code !in rooms {
        return;
      }
      var room := rooms[code];
      rooms := rooms[code := room.(memberTokens := room.memberTokens - {m})];
      // A room without seats and tokens is not kept.
      if rooms[code] == ActiveRoom(map[], map[]) {
        rooms := rooms - {code};
      }
    }

    method DropIdentity(code: Code, m: MemberId)
      requires code in expiryByRoom
      modifies this
      ensures code in expiryByRoom && View(code) == Without(old(View(code)), {m})
      ensures forall c | c != code :: View(c) == old(View(c))
    {
      expiryByRoom := expiryByRoom[code := expiryByRoom[code] - {m}];
      Forget(code, m);
    }

    method SweepEntries(code: Code, now: int)
      requires code in expiryByRoom
      modifies this
      ensures code in expiryByRoom && View(code) == Prune(old(View(code)), now)
      ensures forall c | c != code :: View(c) == old(View(c))
    {
      var entries := expiryByRoom[code].Keys;
      ghost var gone: set<MemberId> := {};
      ghost var before := View(code);
      WithoutAgain(before, {}, {});
      PassedAll(before.clock, now, {});
      hide Without, Passed, Expired;
      while entries != {}
        invariant Passed(before.clock, now, gone, entries)
        invariant code in expiryByRoom && View(code) == Without(before, gone)
        invariant forall c | c != code :: View(c) == old(View(c))
        decreases |entries|
      {
        var m :| m in entries;
        PassOne(before.clock, now, gone, entries, m);
        WithoutAgain(before, gone, {m});
        if expiryByRoom[code][m] <= now {
          DropIdentity(code, m);
          gone := gone + {m};
        }
        entries := entries - {m};
      }
      PassedAll(before.clock, now, gone);
    }

    method PruneExpired(code: Code, now: int)
      modifies this
      ensures View(code) == Prune(old(View(code)), now)
      ensures forall c | c != code :: View(c) == old(View(c))
    {
      if code !in expiryByRoom {
        assert Expired(map[], now) == {};
        WithoutAgain(View(code), {}, {});
        return;
      }
      SweepEntries(code, now);
      hide Prune;
      if expiryByRoom[code] == map[] {
        expiryByRoom := expiryByRoom - {code};
      }
    }

    method Add(code: Code, now: int, m: MemberId, s: SessionId, token: Token)
      modifies this
      ensures View(code) == AddMember(old(View(code)), now, m, s, token)
      ensures forall c | c != code :: View(c) == old(View(c))
    {
      PruneExpired(code, now);
      if code in expiryByRoom {
        expiryByRoom := expiryByRoom[code := expiryByRoom[code] - {m}];
      }
      var room := if code in rooms then rooms[code] else ActiveRoom(map[], map[]);
      rooms := rooms[code := ActiveRoom(room.members[m := s], room.memberTokens[m := token])];
    }

    method Remove(code: Code, now: int, later: int, m: MemberId, session: Option<SessionId>)
      returns (removed: bool, roomEmpty: bool, left: Option<ActiveRoom>)
      modifies this
      ensures View(code) == RemoveMember(old(View(code)), now, later, retention, m, session)
      ensures roomEmpty == (View(code).members == map[])
      ensures left == if roomEmpty then None else Some(ActiveRoom(View(code).members, View(code).tokens))
      ensures removed == (m in old(View(code)).members && !Replaced(old(View(code)), m, session))
      ensures forall c | c != code :: View(c) == old(View(c))
    {
      PruneExpired(code, now);
      if code !in rooms {
        return false, true, None;
      }
      var room := rooms[code];
      if session.Some? && m in room.members && room.members[m] != session.value {
        return false, false, Some(room);
      }
      removed := m in room.members;
      roomEmpty := room.members - {m} == map[];
      left := if roomEmpty then None else Some(room.(members := room.members - {m}));
      rooms := rooms[code := room.(members := room.members - {m})];
      if rooms[code] == ActiveRoom(map[], map[]) {
        rooms := rooms - {code};
      }
      if removed && code in rooms && m in rooms[code].memberTokens {
        var expiry := if code in expiryByRoom then expiryByRoom[code] else map[];
        expiryByRoom := expiryByRoom[code := expiry[m := later + retention]];
      }
    }

    method RevokeIdentity(code: Code, m: MemberId, session: Option<SessionId>)
      modifies this
      ensures View(code) == Revoke(old(View(code)), m, session)
      ensures forall c | c != code :: View(c) == old(View(c))
    {
      if code !in rooms || (session.Some? && m in rooms[code].members && rooms[code].members[m] != session.value)
         || m !in rooms[code].memberTokens {
        return;
      }
      Forget(code, m);
      if code in expiryByRoom {
        expiryByRoom := expiryByRoom[code := expiryByRoom[code] - {m}];
        if expiryByRoom[code] == map[] {
          expiryByRoom := expiryByRoom - {code};
        }
      }
    }

    method FindMemberIdByToken(code: Code, now: int, token: Token) returns (found: Option<MemberId>)
      modifies this
      ensures Resolves(old(View(code)), now, token, found)
      ensures View(code) == Prune(old(View(code)), now)
      ensures forall c | c != code :: View(c) == old(View(c))
    {
      PruneExpired(code, now);
      if code !in rooms {
        return None;
      }
      var entries := rooms[code].memberTokens.Keys;
      while entries != {}
        invariant entries <= rooms[code].memberTokens.Keys
        invariant forall m <- rooms[code].memberTokens :: m in entries || rooms[code].memberTokens[m] != token
        decreases |entries|
      {
        var m :| m in entries;
        if rooms[code].memberTokens[m] == token {
          return Some(m);
        }
        entries := entries - {m};
      }
      return None;
    }

    method Delete(code: Code)
      modifies this
      ensures View(code) == EMPTY
      ensures forall c | c != code :: View(c) == old(View(c))
    {
      rooms, expiryByRoom := rooms - {code}, expiryByRoom - {code};
    }
  }

  // ---- The batched prune of the Redis store ----

  method FirstExpired(clock: map<MemberId, int>, now: int, limit: nat) returns (batch: set<MemberId>)
    ensures batch <= Expired(clock, now)
    ensures |batch| == limit || (|batch| <= limit && batch == Expired(clock, now))
  {
    var rest := Expired(clock, now);
    batch := {};
    while |batch| < limit && rest != {}
      invariant batch !! rest && batch + rest == Expired(clock, now) && |batch| <= limit
      decreases rest
    {
      var m :| m in rest;
      batch, rest := batch + {m}, rest - {m};
    }
  }

  lemma OneMoreBatch(r: Room, now: int, gone: set<MemberId>, batch: set<MemberId>)
    requires gone <= Expired(r.clock, now) && batch <= Expired(Without(r, gone).clock, now)
    ensures Expired(Without(r, gone).clock, now) == Expired(r.clock, now) - gone
    ensures gone + batch <= Expired(r.clock, now) && |gone + batch| == |gone| + |batch|
    ensures Without(Without(r, gone), batch) == Without(r, gone + batch)
  {
    assert gone !! batch;
    WithoutAgain(r, gone, batch);
  }

  function Capacity(batchSize: nat, batches: nat): nat {
    batchSize * batches
  }

  lemma CapacityGrows(batchSize: nat, i: nat, maxBatches: nat)
    requires i < maxBatches
    ensures Capacity(batchSize, i + 1) == Capacity(batchSize, i) + batchSize
    ensures Capacity(batchSize, i + 1) <= Capacity(batchSize, maxBatches)
  {
    if i + 1 < maxBatches {
      CapacityGrows(batchSize, i, maxBatches - 1);
    }
  }

  /** Only expired identities go, and all of them unless every batch was full: stopping early may keep an identity
      a little longer, never shorter. */
  method PruneInBatches(r: Room, now: int, batchSize: nat, maxBatches: nat) returns (r': Room, removed: nat)
    requires batchSize >= 1
    ensures exists gone: set<MemberId> :: gone <= Expired(r.clock, now) && |gone| == removed && r' == Without(r, gone)
    ensures removed < Capacity(batchSize, maxBatches) ==> r' == Prune(r, now)
    ensures removed <= Capacity(batchSize, maxBatches)
  {
    WithoutAgain(r, {}, {});
    r', removed := r, 0;
    ghost var gone: set<MemberId> := {};
    assert Capacity(batchSize, 0) == 0;
    hide Without, Capacity;
    for i := 0 to maxBatches
      invariant removed == |gone| <= Capacity(batchSize, i)
      invariant i == maxBatches || Capacity(batchSize, i) <= Capacity(batchSize, maxBatches)
      invariant removed < Capacity(batchSize, i) ==> gone == Expired(r.clock, now)
      invariant gone <= Expired(r.clock, now) && r' == Without(r, gone)
    {
      CapacityGrows(batchSize, i, maxBatches);
      var batch := FirstExpired(r'.clock, now, batchSize);
      OneMoreBatch(r, now, gone, batch);
      if batch == {} {
        assert gone == Expired(r.clock, now);
        return;
      }
      gone := gone + batch;
      r' := Without(r', batch);
      removed := removed + |batch|;
    }
  }

  // ---- Timed runs ----

  datatype Action =
    | Join(m: MemberId, s: SessionId, token: Token)
    | Disconnect(m: MemberId, session: Option<SessionId>, later: int)
    | RevokeToken(m: MemberId, session: Option<SessionId>)
    | EvictToken(m: MemberId)
    | LookUp(token: Token)
    | CloseRoom

  datatype Event = Event(now: int, action: Action)

  /** `issued` says whom each token was ever drawn for: a token is fresh, or presented again by its own member. */
  datatype System = System(room: Room, retention: int, issued: map<Token, MemberId>)

  function Act(sys: System, e: Event): System {
    var r := sys.room;
    match e.action
    case Join(m, s, token) =>
      if token in sys.issued && sys.issued[token] != m then sys
      else sys.(room := AddMember(r, e.now, m, s, token), issued := sys.issued[token := m])
    case Disconnect(m, session, later) => sys.(room := RemoveMember(r, e.now, later, sys.retention, m, session))
    case RevokeToken(m, session) => sys.(room := Revoke(r, m, session))
    case EvictToken(m) => sys.(room := Revoke(r, m, None))
    case LookUp(_) => sys.(room := Prune(r, e.now))
    case CloseRoom => sys.(room := EMPTY)
  }

  function Run(sys: System, es: seq<Event>): System
    decreases |es|
  {
    if es == [] then sys else Run(Act(sys, es[0]), es[1..])
  }

  predicate Initial(sys: System) {
    sys.room == EMPTY
  }

  /** The clock runs for exactly those who lost their seat and still hold a token. */
  predicate Inv(sys: System) {
    && sys.room.clock.Keys == sys.room.tokens.Keys - sys.room.members.Keys
    && forall m <- sys.room.tokens :: sys.room.tokens[m] in sys.issued && sys.issued[sys.room.tokens[m]] == m
  }

  lemma PruneKeeps(sys: System, now: int)
    requires Inv(sys)
    ensures Inv(sys.(room := Prune(sys.room, now)))
  {
  }

  lemma JoinKeeps(sys: System, now: int, m: MemberId, s: SessionId, token: Token)
    requires Inv(sys) && (token in sys.issued ==> sys.issued[token] == m)
    ensures Inv(Act(sys, Event(now, Join(m, s, token))))
  {
    PruneKeeps(sys, now);
    hide Prune;
  }

  lemma DisconnectKeeps(sys: System, now: int, later: int, m: MemberId, session: Option<SessionId>)
    requires Inv(sys)
    ensures Inv(sys.(room := RemoveMember(sys.room, now, later, sys.retention, m, session)))
  {
    PruneKeeps(sys, now);
    hide Prune;
  }

  lemma RevokeKeeps(sys: System, m: MemberId, session: Option<SessionId>)
    requires Inv(sys)
    ensures Inv(sys.(room := Revoke(sys.room, m, session)))
  {
  }

  lemma InvStep(sys: System, e: Event)
    requires Inv(sys)
    ensures Inv(Act(sys, e))
  {
    match e.action {
      case Join(m, s, token) =>
        if token !in sys.issued || sys.issued[token] == m { JoinKeeps(sys, e.now, m, s, token); }
      case Disconnect(m, session, later) => DisconnectKeeps(sys, e.now, later, m, session);
      case RevokeToken(m, session) => RevokeKeeps(sys, m, session);
      case EvictToken(m) => RevokeKeeps(sys, m, None);
      case LookUp(_) => PruneKeeps(sys, e.now);
      case CloseRoom =>
    }
    hide Prune, AddMember, RemoveMember, Revoke;
  }

  lemma {:induction false} InvRun(sys: System, es: seq<Event>)
    requires Inv(sys)
    ensures Inv(Run(sys, es))
    decreases |es|
  {
    if es != [] {
      InvStep(sys, es[0]);
      hide Inv, Act;
      InvRun(Act(sys, es[0]), es[1..]);
    }
  }

  /** In every run, the retention clock runs for exactly the tokens whose member has no seat. */
  lemma ClockRunsForTheAbsent(sys: System, es: seq<Event>)
    requires Initial(sys)
    ensures var r := Run(sys, es).room; r.clock.Keys == r.tokens.Keys - r.members.Keys
  {
    InvRun(sys, es);
  }

  /** Times do not go backwards, and start no earlier than `from`. */
  predicate Chronological(from: int, es: seq<Event>) {
    && (forall i | 0 <= i < |es| :: from <= es[i].now)
    && (forall i, j | 0 <= i < j < |es| :: es[i].now <= es[j].now)
  }

  function LastTime(from: int, es: seq<Event>): int {
    if es == [] then from else es[|es| - 1].now
  }

  /** The member is not seated again, its token is not revoked, and the room is not closed. */
  predicate LeavesAlone(a: Action, m: MemberId) {
    match a
    case Join(m', _, _) => m' != m
    case RevokeToken(m', _) => m' != m
    case EvictToken(m') => m' != m
    case CloseRoom => false
    case _ => true
  }

  /** The identity is on the clock until `deadline`, or that time has come and it is gone. */
  predicate OnTheClock(r: Room, m: MemberId, token: Token, deadline: int, now: int) {
    && m !in r.members
    && (if m in r.tokens then r.tokens[m] == token && m in r.clock && r.clock[m] == deadline
        else m !in r.clock && deadline <= now)
  }

  lemma ClockStep(sys: System, e: Event, m: MemberId, token: Token, deadline: int, now: int)
    requires Inv(sys) && token in sys.issued && sys.issued[token] == m
    requires OnTheClock(sys.room, m, token, deadline, now) && now <= e.now && LeavesAlone(e.action, m)
    ensures var next := Act(sys, e); OnTheClock(next.room, m, token, deadline, e.now) && token in next.issued && next.issued[token] == m
  {
  }

  lemma {:induction false} ClockRun(sys: System, es: seq<Event>, m: MemberId, token: Token, deadline: int, now: int)
    requires Inv(sys) && token in sys.issued && sys.issued[token] == m
    requires OnTheClock(sys.room, m, token, deadline, now) && Chronological(now, es)
    requires forall e <- es :: LeavesAlone(e.action, m)
    ensures var end := Run(sys, es);
            OnTheClock(end.room, m, token, deadline, LastTime(now, es)) && token in end.issued && end.issued[token] == m
    decreases |es|
  {
    if es != [] {
      InvStep(sys, es[0]);
      ClockStep(sys, es[0], m, token, deadline, now);
      assert LastTime(now, es) == LastTime(es[0].now, es[1..]);
      hide Inv, Act, OnTheClock;
      ClockRun(Act(sys, es[0]), es[1..], m, token, deadline, es[0].now);
    }
  }

  /** A member that holds a token disconnects at `t0`, its clock set at `t1`. Whatever else happens in the room, a
      lookup of that token at `now` answers that member before the deadline and nobody from the deadline on. */
  lemma IdentityLastsUntilItsDeadline(sys0: System, before: seq<Event>, t0: int, t1: int, m: MemberId, session: Option<SessionId>,
                                      after: seq<Event>, now: int, found: Option<MemberId>)
    requires Initial(sys0)
    requires var r := Prune(Run(sys0, before).room, t0); m in r.members && m in r.tokens && !Replaced(r, m, session)
    requires Chronological(t1, after) && LastTime(t1, after) <= now
    requires forall e <- after :: LeavesAlone(e.action, m)
    requires var left := Act(Run(sys0, before), Event(t0, Disconnect(m, session, t1)));
             Resolves(Run(left, after).room, now, Run(sys0, before).room.tokens[m], found)
    ensures found == if now < t1 + sys0.retention then Some(m) else None
  {
    InvRun(sys0, before);
    RetentionIsFixed(sys0, before);
    var sys := Run(sys0, before);
    var token := sys.room.tokens[m];
    var e := Event(t0, Disconnect(m, session, t1));
    var left := Act(sys, e);
    InvStep(sys, e);
    var deadline := t1 + sys0.retention;
    assert OnTheClock(left.room, m, token, deadline, t1);
    ClockRun(left, after, m, token, deadline, t1);
    InvRun(left, after);
    var end := Run(left, after);
    hide Run, Act;
    LookUpOnTheClock(end, m, token, deadline, LastTime(t1, after), now, found);
  }

  lemma LookUpOnTheClock(sys: System, m: MemberId, token: Token, deadline: int, last: int, now: int, found: Option<MemberId>)
    requires Inv(sys) && token in sys.issued && sys.issued[token] == m
    requires OnTheClock(sys.room, m, token, deadline, last) && last <= now
    requires Resolves(sys.room, now, token, found)
    ensures found == if now < deadline then Some(m) else None
  {
    var holders := Holders(Prune(sys.room, now).tokens, token);
    assert forall x <- holders :: x == m;
    if now < deadline {
      assert m in holders;
    } else {
      assert m !in holders;
    }
  }

  lemma {:induction false} RetentionIsFixed(sys: System, es: seq<Event>)
    ensures Run(sys, es).retention == sys.retention
    decreases |es|
  {
    if es != [] {
      RetentionIsFixed(Act(sys, es[0]), es[1..]);
    }
  }

  /** A token never reclaims anybody but the member it was drawn for, and a seated member's token has no deadline. */
  lemma TokenNamesOneMember(sys0: System, es: seq<Event>, now: int, token: Token, found: Option<MemberId>)
    requires Initial(sys0) && Resolves(Run(sys0, es).room, now, token, found)
    ensures var sys := Run(sys0, es);
            && (found.Some? ==> token in sys.issued && sys.issued[token] == found.value)
            && (forall m <- sys.room.tokens :: sys.room.tokens[m] == token && m in sys.room.members ==> found == Some(m))
  {
    InvRun(sys0, es);
    var sys := Run(sys0, es);
    hide Run;
    forall m <- sys.room.tokens | sys.room.tokens[m] == token && m in sys.room.members
      ensures found == Some(m)
    {
      assert m in Holders(Prune(sys.room, now).tokens, token);
    }
  }

  // ---- What one call does ----

  /** Nobody else's seat, token or deadline is changed, but for identities whose deadline has come. */
  predicate OthersOnlyExpire(r: Room, r': Room, m: MemberId, now: int) {
    && r'.members - {m} == r.members - {m}
    && (forall x <- r.tokens | x != m :: x in r'.tokens <==> !(x in r.clock && r.clock[x] <= now))
    && (forall x <- r'.tokens | x != m :: x in r.tokens && r'.tokens[x] == r.tokens[x])
    && (forall x <- r.clock | x != m :: x in r'.clock <==> now < r.clock[x])
    && (forall x <- r'.clock | x != m :: x in r.clock && r'.clock[x] == r.clock[x])
  }

  /** A member that is added has its seat and its token, and no deadline. */
  lemma AddingSeats(r: Room, now: int, m: MemberId, s: SessionId, token: Token)
    ensures var r' := AddMember(r, now, m, s, token);
            && m in r'.members && r'.members[m] == s && m in r'.tokens && r'.tokens[m] == token && m !in r'.clock
            && OthersOnlyExpire(r, r', m, now)
  {
  }

  /** A member that is removed loses exactly its seat, and its deadline starts if it still has a token; a session that
      no longer holds the seat removes nothing. */
  lemma RemovingStartsTheClock(r: Room, now: int, later: int, retention: int, m: MemberId, session: Option<SessionId>)
    requires m in r.members ==> m !in r.clock
    ensures var r' := RemoveMember(r, now, later, retention, m, session);
            && OthersOnlyExpire(r, r', m, now)
            && (m in r'.tokens <==> m in r.tokens && (m in r.clock ==> now < r.clock[m])) && (m in r'.tokens ==> r'.tokens[m] == r.tokens[m])
            && if m !in r.members then
                 m !in r'.members && (m in r'.clock <==> m in r.clock && now < r.clock[m]) && (m in r'.clock ==> r'.clock[m] == r.clock[m])
               else if session.None? || session.value == r.members[m] then
                 m !in r'.members && if m in r.tokens then m in r'.clock && r'.clock[m] == later + retention else m !in r'.clock
               else
                 m in r'.members && r'.members[m] == r.members[m] && m !in r'.clock
  {
  }

  /** Revoking takes token and deadline of that member together, and nothing else; a session that no longer holds the
      seat revokes nothing. */
  lemma RevokingForgetsTheToken(r: Room, m: MemberId, session: Option<SessionId>)
    ensures var r' := Revoke(r, m, session);
            if session.None? || m !in r.members || r.members[m] == session.value then
              && r'.members == r.members && m !in r'.tokens && (m in r.tokens ==> m !in r'.clock)
              && r'.tokens - {m} == r.tokens - {m} && r'.clock - {m} == r.clock - {m}
            else r' == r
  {
  }

  /** A lookup prunes exactly the identities whose deadline has come, whichever token it asks for; seats stay. */
  lemma LookupsPrune(sys: System, now: int, token: Token, m: MemberId)
    ensures var r, r' := sys.room, Act(sys, Event(now, LookUp(token))).room;
            && r'.members == r.members
            && (m in r'.tokens <==> m in r.tokens && (m in r.clock ==> now < r.clock[m]))
            && (m in r'.clock <==> m in r.clock && now < r.clock[m])
            && (m in r'.tokens ==> r'.tokens[m] == r.tokens[m]) && (m in r'.clock ==> r'.clock[m] == r.clock[m])
  {
  }

  // ---- Tokens that are taken away, and seats that are kept ----

  /** The step takes the member's token away. */
  predicate TakesTheToken(r: Room, a: Action, m: MemberId) {
    || a == EvictToken(m)
    || a == CloseRoom
    || (a.RevokeToken? && a.m == m && (a.session.None? || m !in r.members || r.members[m] == a.session.value))
  }

  predicate Rejoins(a: Action, m: MemberId) {
    a.Join? && a.m == m
  }

  lemma TokenlessStep(sys: System, e: Event, m: MemberId)
    requires m !in sys.room.tokens && !Rejoins(e.action, m)
    ensures m !in Act(sys, e).room.tokens
  {
  }

  lemma {:induction false} TokenlessRun(sys: System, es: seq<Event>, m: MemberId)
    requires m !in sys.room.tokens && forall e <- es :: !Rejoins(e.action, m)
    ensures m !in Run(sys, es).room.tokens
    decreases |es|
  {
    if es != [] {
      assert es[0] in es;
      TokenlessStep(sys, es[0], m);
      hide Act;
      TokenlessRun(Act(sys, es[0]), es[1..], m);
    }
  }

  lemma IssuedStep(sys: System, e: Event, token: Token, m: MemberId)
    requires token in sys.issued && sys.issued[token] == m
    ensures var next := Act(sys, e); token in next.issued && next.issued[token] == m
  {
  }

  lemma {:induction false} IssuedRun(sys: System, es: seq<Event>, token: Token, m: MemberId)
    requires token in sys.issued && sys.issued[token] == m
    ensures var end := Run(sys, es); token in end.issued && end.issued[token] == m
    decreases |es|
  {
    if es != [] {
      IssuedStep(sys, es[0], token, m);
      hide Act;
      IssuedRun(Act(sys, es[0]), es[1..], token, m);
    }
  }

  /** Once a token is revoked or evicted, or the room is closed, no token ever drawn for that member resolves to anybody, whatever else
      happens in the room and whatever the time, until that member joins again. */
  lemma TakenTokenStopsResolving(sys0: System, before: seq<Event>, e: Event, after: seq<Event>, m: MemberId, token: Token, now: int,
                                 found: Option<MemberId>)
    requires Initial(sys0)
    requires var sys := Run(sys0, before); token in sys.issued && sys.issued[token] == m && TakesTheToken(sys.room, e.action, m)
    requires forall x <- after :: !Rejoins(x.action, m)
    requires Resolves(Run(Act(Run(sys0, before), e), after).room, now, token, found)
    ensures found == None
  {
    InvRun(sys0, before);
    var sys := Run(sys0, before);
    var next := Act(sys, e);
    InvStep(sys, e);
    assert m !in next.room.tokens;
    IssuedStep(sys, e, token, m);
    hide Run, Act;
    InvRun(next, after);
    TokenlessRun(next, after, m);
    IssuedRun(next, after, token, m);
  }

  /** The step is another session's, or another member's: it cannot end the seat that session `s` holds. */
  predicate SparesSeat(a: Action, m: MemberId, s: SessionId) {
    match a
    case Join(m', _, _) => m' != m
    case Disconnect(m', session, _) => m' != m || (session.Some? && session.value != s)
    case RevokeToken(m', session) => m' != m || (session.Some? && session.value != s)
    case EvictToken(m') => m' != m
    case LookUp(_) => true
    case CloseRoom => false
  }

  predicate Seated(r: Room, m: MemberId, s: SessionId, token: Token) {
    m in r.members && r.members[m] == s && m in r.tokens && r.tokens[m] == token && m !in r.clock
  }

  lemma SeatedStep(sys: System, e: Event, m: MemberId, s: SessionId, token: Token)
    requires Seated(sys.room, m, s, token) && SparesSeat(e.action, m, s)
    ensures Seated(Act(sys, e).room, m, s, token)
  {
  }

  lemma {:induction false} SeatedRun(sys: System, es: seq<Event>, m: MemberId, s: SessionId, token: Token)
    requires Seated(sys.room, m, s, token) && forall e <- es :: SparesSeat(e.action, m, s)
    ensures Seated(Run(sys, es).room, m, s, token)
    decreases |es|
  {
    if es != [] {
      assert es[0] in es;
      SeatedStep(sys, es[0], m, s, token);
      hide Act, Seated;
      SeatedRun(Act(sys, es[0]), es[1..], m, s, token);
    }
  }

  /** A member that joins with a fresh token, or its own, is seated by that session, and its token resolves to it at any
      time, whatever older sessions of the member or other members do, until that session ends or the token is taken. */
  lemma JoinedMemberResolves(sys0: System, before: seq<Event>, t0: int, m: MemberId, s: SessionId, token: Token, after: seq<Event>,
                             now: int, found: Option<MemberId>)
    requires Initial(sys0)
    requires var sys := Run(sys0, before); token in sys.issued ==> sys.issued[token] == m
    requires forall e <- after :: SparesSeat(e.action, m, s)
    requires Resolves(Run(Act(Run(sys0, before), Event(t0, Join(m, s, token))), after).room, now, token, found)
    ensures found == Some(m)
    ensures Seated(Run(Act(Run(sys0, before), Event(t0, Join(m, s, token))), after).room, m, s, token)
  {
    InvRun(sys0, before);
    var sys := Run(sys0, before);
    var e := Event(t0, Join(m, s, token));
    var next := Act(sys, e);
    InvStep(sys, e);
    assert Seated(next.room, m, s, token) && token in next.issued && next.issued[token] == m;
    hide Run, Act;
    InvRun(next, after);
    SeatedRun(next, after, m, s, token);
    IssuedRun(next, after, token, m);
    assert m in Holders(Prune(Run(next, after).room, now).tokens, token);
  }
}
