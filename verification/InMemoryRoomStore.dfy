/** Room records and the guards that say what a write may overwrite. */
module Rooms {
  import opened Options

  type Code = string
  type JoinToken = nat

  /** A persisted room. Its code is the key it is stored under; a record naming another code is unusable. */
  datatype Room = Room(
    joinToken: JoinToken,
    createdAt: int,
    ownerMemberId: Option<string>,
    ownerDisplayName: Option<string>,
    sharedVideo: Option<nat>,
    playback: Option<nat>,
    version: nat,
    lastActiveAt: int,
    expiresAt: Option<int>
  )

  /** `None` leaves the field alone. */
  datatype Patch = Patch(
    ownerDisplayName: Option<Option<string>>,
    sharedVideo: Option<Option<nat>>,
    playback: Option<Option<nat>>,
    lastActiveAt: Option<int>,
    expiresAt: Option<Option<int>>
  )

  /** A version that was read, or a room instance, optionally at a version. */
  datatype Guard = AtVersion(version: nat) | Instance(joinToken: JoinToken, at: Option<nat>)

  datatype UpdateResult = Updated(room: Room) | NotFound | VersionConflict

  datatype DeleteOutcome = Deleted | AlreadyDeleted | Superseded

  function NewRoom(joinToken: JoinToken, createdAt: int, owner: Option<string>, name: Option<string>): Room {
    Room(joinToken, createdAt, owner, name, None, None, 0, createdAt, None)
  }

  function Or<T>(change: Option<T>, current: T): T {
    if change.Some? then change.value else current
  }

  function Merge(room: Room, patch: Patch): Room {
    room.(ownerDisplayName := Or(patch.ownerDisplayName, room.ownerDisplayName),
          sharedVideo := Or(patch.sharedVideo, room.sharedVideo),
          playback := Or(patch.playback, room.playback),
          lastActiveAt := Or(patch.lastActiveAt, room.lastActiveAt),
          expiresAt := Or(patch.expiresAt, room.expiresAt),
          version := room.version + 1)
  }

  /** Why the guard refuses this record, if it does. */
  function Refusal(room: Room, guard: Guard): Option<UpdateResult> {
    match guard
    case AtVersion(v) => if room.version != v then Some(VersionConflict) else None
    case Instance(token, at) =>
      if room.joinToken != token then Some(NotFound)
      else if at.Some? && room.version != at.value then Some(VersionConflict)
      else None
  }

  predicate Expired(room: Room, now: int) {
    room.expiresAt.Some? && room.expiresAt.value <= now
  }

  /** The sequence lists exactly these codes, each once. */
  predicate Lists(codes: seq<Code>, all: set<Code>) {
    && (forall c <- codes :: c in all)
    && (forall c <- all :: c in codes)
    && (forall i, j :: 0 <= i < j < |codes| ==> codes[i] != codes[j])
  }

  lemma ListsSnoc(codes: seq<Code>, all: set<Code>, c: Code)
    requires Lists(codes, all) && c !in all
    ensures Lists(codes + [c], all + {c})
  {
  }

  datatype Query = Query(keyword: Option<string>, includeExpired: bool)

  /** How letters are folded for a search; nothing here depends on which folding it is. */
  type Folding = string -> string

  predicate FoundAt(s: string, part: string, k: nat) {
    k + |part| <= |s| && s[k..k + |part|] == part
  }

  predicate Includes(s: string, part: string) {
    exists k: nat | k <= |s| :: FoundAt(s, part, k)
  }

  /** The empty keyword counts as no keyword. */
  predicate KeywordMatches(code: Code, q: Query, lower: Folding) {
    q.keyword.Some? && q.keyword.value != "" ==> Includes(lower(code), lower(q.keyword.value))
  }

  predicate Matches(code: Code, room: Room, q: Query, lower: Folding, now: int) {
    (!q.includeExpired ==> !Expired(room, now)) && KeywordMatches(code, q, lower)
  }
}

/** The in-memory room store: the simple store every other one has to behave like. */
module InMemoryRoomStore {
  import opened Options
  import opened Rooms

  type RoomMap = map<Code, Room>

  function Update(rooms: RoomMap, code: Code, guard: Guard, patch: Patch, now: int): (RoomMap, UpdateResult) {
    if code !in rooms then (rooms, NotFound)
    else
      var refusal := Refusal(rooms[code], guard);
      if refusal.Some? then (rooms, refusal.value)
      else
        var next := Merge(rooms[code], patch).(lastActiveAt := Or(patch.lastActiveAt, now));
        (rooms[code := next], Updated(next))
  }

  function Delete(rooms: RoomMap, code: Code, joinToken: JoinToken): (RoomMap, DeleteOutcome) {
    if code !in rooms then (rooms, AlreadyDeleted)
    else if rooms[code].joinToken != joinToken then (rooms, Superseded)
    else (rooms - {code}, Deleted)
  }

  function DeleteExpired(rooms: RoomMap, code: Code, now: int): (RoomMap, DeleteOutcome) {
    if code !in rooms then (rooms, AlreadyDeleted)
    else if !Expired(rooms[code], now) then (rooms, Superseded)
    else (rooms - {code}, Deleted)
  }

  function ExpiredCodes(rooms: RoomMap, now: int): set<Code> {
    set c | c in rooms && Expired(rooms[c], now)
  }

  function MatchingCodes(rooms: RoomMap, q: Query, lower: Folding, now: int): set<Code> {
    set c | c in rooms && Matches(c, rooms[c], q, lower, now)
  }

  // ---- What the operations promise, field by field ----

  /** A change that is given is written exactly; one that is not leaves the value alone. */
  predicate Writes<T(==)>(change: Option<T>, before: T, after: T) {
    (change.Some? ==> after == change.value) && (change.None? ==> after == before)
  }

  /** The record after an update, seen field by field; `active` is when it was active where the patch does not say. */
  predicate Patched(was: Room, patch: Patch, r: Room, active: int) {
    && Writes(patch.ownerDisplayName, was.ownerDisplayName, r.ownerDisplayName)
    && Writes(patch.sharedVideo, was.sharedVideo, r.sharedVideo)
    && Writes(patch.playback, was.playback, r.playback)
    && Writes(patch.lastActiveAt, active, r.lastActiveAt)
    && Writes(patch.expiresAt, was.expiresAt, r.expiresAt)
    && r.joinToken == was.joinToken && r.createdAt == was.createdAt && r.ownerMemberId == was.ownerMemberId
    && r.version == was.version + 1
  }

  /** Every patched field takes the patch's value and every other keeps its own, with the last-active time defaulting
      to now; the instance, its creation time and its creator stay, and the version counts the write. */
  lemma UpdateWritesThePatch(rooms: RoomMap, code: Code, guard: Guard, patch: Patch, now: int)
    ensures var (after, result) := Update(rooms, code, guard, patch, now);
            result.Updated? ==>
              code in rooms && after == rooms[code := result.room] && Patched(rooms[code], patch, result.room, now)
  {
  }

  /** A guard on the version admits exactly that version of whatever instance is there; a guard on the instance finds
      no other one, and may ask for a version besides. What is refused changes nothing. */
  lemma UpdateIsGuarded(rooms: RoomMap, code: Code, guard: Guard, patch: Patch, now: int)
    ensures var (after, result) := Update(rooms, code, guard, patch, now);
            && (result.NotFound? <==> code !in rooms || (guard.Instance? && rooms[code].joinToken != guard.joinToken))
            && (result.VersionConflict? <==>
                  && code in rooms
                  && (guard.AtVersion? ==> rooms[code].version != guard.version)
                  && (guard.Instance? ==> rooms[code].joinToken == guard.joinToken && guard.at.Some? && guard.at.value != rooms[code].version))
            && (!result.Updated? ==> after == rooms)
  {
  }

  /** A room goes only as the instance named, or only once its expiry has come, and it goes alone. */
  lemma DeletesAreGuarded(rooms: RoomMap, code: Code, joinToken: JoinToken, now: int)
    ensures var (after, outcome) := Delete(rooms, code, joinToken);
            && (outcome.Deleted? <==> code in rooms && rooms[code].joinToken == joinToken)
            && (outcome.AlreadyDeleted? <==> code !in rooms)
            && after.Keys == (if outcome.Deleted? then rooms.Keys - {code} else rooms.Keys)
            && forall c <- after :: after[c] == rooms[c]
    ensures var (after, outcome) := DeleteExpired(rooms, code, now);
            && (outcome.Deleted? <==> code in rooms && rooms[code].expiresAt.Some? && rooms[code].expiresAt.value <= now)
            && (outcome.AlreadyDeleted? <==> code !in rooms)
            && after.Keys == (if outcome.Deleted? then rooms.Keys - {code} else rooms.Keys)
            && forall c <- after :: after[c] == rooms[c]
  {
    assert (rooms - {code}).Keys == rooms.Keys - {code};
  }

  /** Which rooms a sweep takes and a count counts: a room without an expiry never expires, an empty keyword is no
      keyword, and any other has to occur somewhere in the folded code. */
  lemma SweepAndCountSelect(rooms: RoomMap, code: Code, q: Query, lower: Folding, now: int)
    ensures code in ExpiredCodes(rooms, now) <==> code in rooms && exists t | rooms[code].expiresAt == Some(t) :: t <= now
    ensures code in MatchingCodes(rooms, q, lower, now) <==>
              && code in rooms
              && (q.includeExpired || rooms[code].expiresAt.None? || now < rooms[code].expiresAt.value)
              && (|| q.keyword.None? || q.keyword.value == ""
                  || exists before, after :: lower(code) == before + lower(q.keyword.value) + after)
  {
    if q.keyword.Some? {
      IncludesIff(lower(code), lower(q.keyword.value));
    }
    hide Includes;
  }

  lemma IncludesIff(s: string, part: string)
    ensures Includes(s, part) <==> exists before, after :: s == before + part + after
  {
    if Includes(s, part) {
      var k: nat :| k <= |s| && FoundAt(s, part, k);
      assert s == s[..k] + part + s[k + |part|..];
    }
    if before, after :| s == before + part + after {
      assert FoundAt(s, part, |before|);
    }
  }

  class Store {
    var rooms: RoomMap

    constructor ()
      ensures rooms == map[]
    {
      rooms := map[];
    }

    /** False where the source throws "already exists". */
    method CreateRoom(code: Code, joinToken: JoinToken, createdAt: int, owner: Option<string>, name: Option<string>)
      returns (created: bool)
      modifies this
      ensures created == (code !in old(rooms))
      ensures rooms == if created then old(rooms)[code := NewRoom(joinToken, createdAt, owner, name)] else old(rooms)
    {
      if code in rooms {
        return false;
      }
      rooms := rooms[code := NewRoom(joinToken, createdAt, owner, name)];
      return true;
    }

    method UpdateRoom(code: Code, guard: Guard, patch: Patch, now: int) returns (result: UpdateResult)
      modifies this
      ensures (rooms, result) == Update(old(rooms), code, guard, patch, now)
      ensures result.Updated? ==>
                code in old(rooms) && rooms == old(rooms)[code := result.room] && Patched(old(rooms)[code], patch, result.room, now)
      ensures !result.Updated? ==> rooms == old(rooms)
    {
      if code !in rooms {
        return NotFound;
      }
      var current := rooms[code];
      match guard {
        case AtVersion(v) =>
          if current.version != v {
            return VersionConflict;
          }
        case Instance(token, at) =>
          if current.joinToken != token {
            return NotFound;
          }
          if at.Some? && current.version != at.value {
            return VersionConflict;
          }
      }
      var next := Merge(current, patch).(lastActiveAt := Or(patch.lastActiveAt, now));
      rooms := rooms[code := next];
      return Updated(next);
    }

    method DeleteRoom(code: Code, joinToken: JoinToken) returns (outcome: DeleteOutcome)
      modifies this
      ensures (rooms, outcome) == Delete(old(rooms), code, joinToken)
    {
      if code !in rooms {
        return AlreadyDeleted;
      }
      if rooms[code].joinToken != joinToken {
        return Superseded;
      }
      rooms := rooms - {code};
      return Deleted;
    }

    method DeleteExpiredRoom(code: Code, now: int) returns (outcome: DeleteOutcome)
      modifies this
      ensures (rooms, outcome) == DeleteExpired(old(rooms), code, now)
    {
      if code !in rooms {
        return AlreadyDeleted;
      }
      if rooms[code].expiresAt.None? || rooms[code].expiresAt.value > now {
        return Superseded;
      }
      rooms := rooms - {code};
      return Deleted;
    }

    /** Every expired room and no other goes, each reported once. */
    method DeleteExpiredRooms(now: int) returns (deleted: seq<Code>)
      modifies this
      ensures rooms == old(rooms) - ExpiredCodes(old(rooms), now)
      ensures Lists(deleted, ExpiredCodes(old(rooms), now))
    {
      deleted := [];
      ghost var all, doomed, gone := rooms, ExpiredCodes(rooms, now), {};
      var pending := rooms.Keys;
      while pending != {}
        invariant pending <= rooms.Keys
        invariant gone == doomed - pending
        invariant Lists(deleted, gone)
        invariant rooms == all - gone
        decreases pending
      {
        var code :| code in pending;
        pending := pending - {code};
        if rooms[code].expiresAt.Some? && rooms[code].expiresAt.value <= now {
          rooms := rooms - {code};
          ListsSnoc(deleted, gone, code);
          deleted := deleted + [code];
          gone := gone + {code};
        }
      }
      assert gone == doomed;
    }

    method CountRooms(q: Query, lower: Folding, now: int) returns (n: nat)
      ensures n == |MatchingCodes(rooms, q, lower, now)|
    {
      hide Matches;
      n := 0;
      var pending := rooms.Keys;
      ghost var matching := MatchingCodes(rooms, q, lower, now);
      assert matching - pending == {};
      while pending != {}
        invariant pending <= rooms.Keys
        invariant n == |matching - pending|
        decreases pending
      {
        ghost var before := pending;
        var code :| code in pending;
        pending := pending - {code};
        if Matches(code, rooms[code], q, lower, now) {
          n := n + 1;
          assert matching - pending == (matching - before) + {code};
        } else {
          assert matching - pending == matching - before;
        }
      }
      assert matching - pending == matching;
    }
  }
}
