/**
 Who is presented as the owner of the shared video: the stored sharer while that member is online, else the member
 with the longest tenure.
 */
module SharedVideoOwner {
  import opened Options

  type MemberId = string

  /** `None` is a tenure that was never recorded, which never wins. */
  datatype Candidate = Candidate(id: MemberId, joinedAt: Option<int>)

  /** Lexicographic order on code units. */
  predicate Less(a: string, b: string)
    decreases |a|
  {
    b != [] && (a == [] || a[0] < b[0] || (a[0] == b[0] && Less(a[1..], b[1..])))
  }

  lemma {:induction false} LessIsStrictOrder(a: string, b: string, c: string)
    ensures !Less(a, a)
    ensures Less(a, b) && Less(b, c) ==> Less(a, c)
    ensures Less(a, b) || Less(b, a) || a == b
    ensures !(Less(a, b) && Less(b, a))
    decreases |a|
  {
    if a != [] {
      LessIsStrictOrder(a[1..], if b == [] then [] else b[1..], if c == [] then [] else c[1..]);
    }
    if a != [] && b != [] && a[0] == b[0] && a[1..] == b[1..] {
      assert a == [a[0]] + a[1..] && b == [b[0]] + b[1..];
    }
  }

  predicate Earlier(a: Option<int>, b: Option<int>) {
    a.Some? && (b.None? || a.value < b.value)
  }

  predicate Precedes(a: Candidate, b: Candidate) {
    if a.joinedAt != b.joinedAt then Earlier(a.joinedAt, b.joinedAt) else Less(a.id, b.id)
  }

  lemma PrecedesIsStrictOrder(a: Candidate, b: Candidate, c: Candidate)
    ensures !Precedes(a, a)
    ensures Precedes(a, b) && Precedes(b, c) ==> Precedes(a, c)
    ensures Precedes(a, b) || Precedes(b, a) || a == b
    ensures !(Precedes(a, b) && Precedes(b, a))
  {
    LessIsStrictOrder(a.id, b.id, c.id);
  }

  // ---- What the election means ----

  predicate Online(members: seq<Candidate>, id: MemberId) {
    exists c <- members :: c.id == id
  }

  /** No candidate precedes it. */
  predicate Longest(members: seq<Candidate>, c: Candidate) {
    c in members && forall d <- members :: !Precedes(d, c)
  }

  /** `owner` is who the room is shown; `shared` is the stored id, where none and the empty one are alike. */
  ghost predicate Owns(shared: Option<MemberId>, members: seq<Candidate>, owner: Option<MemberId>) {
    if shared.None? || shared.value == "" then owner == None
    else if Online(members, shared.value) || members == [] then owner == shared
    else owner.Some? && exists c :: Longest(members, c) && c.id == owner.value
  }

  /** Comparing ids is comparing their first different code units; a proper prefix comes first. */
  lemma IdsCompareByCodeUnit(a: char, b: char, x: string, y: string)
    ensures Less([a] + x, [b] + y) <==> a < b || (a == b && Less(x, y))
    ensures Less(x, "") == false
    ensures Less("", [b] + y)
  {
    assert ([a] + x)[1..] == x && ([b] + y)[1..] == y;
  }

  /** The election in plain numbers. Nobody without a stored sharer; a stored sharer that is online, or that nobody is
      there to succeed, keeps the share; else one of the members takes it that joined at a recorded time no later than
      anybody else's, or any where no time is recorded, and whose id is least among those that joined with it. */
  lemma OwnerJoinedFirst(shared: Option<MemberId>, members: seq<Candidate>, owner: Option<MemberId>)
    requires Owns(shared, members, owner)
    ensures shared.None? || shared.value == "" ==> owner == None
    ensures shared.Some? && shared.value != "" && (members == [] || exists c <- members :: c.id == shared.value) ==> owner == shared
    ensures shared.Some? && shared.value != "" && members != [] && (forall c <- members :: c.id != shared.value) ==>
              exists c <- members :: owner == Some(c.id)
                && (forall d <- members :: d.joinedAt.Some? ==> c.joinedAt.Some? && c.joinedAt.value <= d.joinedAt.value)
                && (forall d <- members :: d.joinedAt == c.joinedAt ==> d.id == c.id || Less(c.id, d.id))
  {
    if shared.Some? && shared.value != "" && members != [] && !Online(members, shared.value) {
      var c :| Longest(members, c) && Some(c.id) == owner;
      forall d <- members
        ensures d.joinedAt.Some? ==> c.joinedAt.Some? && c.joinedAt.value <= d.joinedAt.value
        ensures d.joinedAt == c.joinedAt ==> d.id == c.id || Less(c.id, d.id)
      {
        assert !Precedes(d, c);
        LessIsStrictOrder(c.id, d.id, d.id);
      }
    }
  }

  method ResolveSharedVideoOwnerId(shared: Option<MemberId>, members: seq<Candidate>) returns (owner: Option<MemberId>)
    ensures Owns(shared, members, owner)
  {
    if shared.None? || shared.value == "" {
      return None;
    }
    if exists c <- members :: c.id == shared.value {
      return shared;
    }
    var successor: Option<Candidate> := None;
    for i := 0 to |members|
      invariant successor.None? <==> i == 0
      invariant successor.Some? ==> Longest(members[..i], successor.value)
    {
      var member := members[i];
      if successor.None? || Precedes(member, successor.value) {
        if successor.Some? {
          StillLongest(members[..i], successor.value, member);
        } else {
          PrecedesIsStrictOrder(member, member, member);
        }
        successor := Some(member);
      }
      assert members[..i + 1] == members[..i] + [member];
    }
    assert members[..|members|] == members;
    return if successor.Some? then Some(successor.value.id) else shared;
  }

  lemma StillLongest(members: seq<Candidate>, old_: Candidate, c: Candidate)
    requires Longest(members, old_) && Precedes(c, old_)
    ensures Longest(members + [c], c)
  {
    forall d <- members + [c]
      ensures !Precedes(d, c)
    {
      PrecedesIsStrictOrder(d, c, old_);
      PrecedesIsStrictOrder(c, c, c);
    }
  }

  lemma LongestIsUnique(members: seq<Candidate>, a: Candidate, b: Candidate)
    requires Longest(members, a) && Longest(members, b)
    ensures a == b
  {
    PrecedesIsStrictOrder(a, b, b);
  }

  predicate SameMembers(a: seq<Candidate>, b: seq<Candidate>) {
    (forall c <- a :: c in b) && (forall c <- b :: c in a)
  }

  /** The answer depends on who is there, not on the order or on repetitions of the list. */
  lemma OrderDoesNotMatter(shared: Option<MemberId>, a: seq<Candidate>, b: seq<Candidate>, x: Option<MemberId>, y: Option<MemberId>)
    requires SameMembers(a, b) && Owns(shared, a, x) && Owns(shared, b, y)
    ensures x == y
  {
    if shared.Some? && shared.value != "" && !Online(a, shared.value) && a != [] {
      var c :| Longest(a, c) && Some(c.id) == x;
      assert a[0] in b;
      var d :| Longest(b, d) && Some(d.id) == y;
      LongestIsUnique(b, c, d);
    } else if a == [] && b != [] {
      assert b[0] in a;
    }
  }

  lemma OwnerIsUnique(shared: Option<MemberId>, members: seq<Candidate>)
    ensures forall x, y :: Owns(shared, members, x) && Owns(shared, members, y) ==> x == y
  {
    forall x, y | Owns(shared, members, x) && Owns(shared, members, y)
      ensures x == y
    {
      OrderDoesNotMatter(shared, members, members, x, y);
    }
  }

  lemma PermutationsAreSameMembers(a: seq<Candidate>, b: seq<Candidate>)
    requires multiset(a) == multiset(b)
    ensures SameMembers(a, b)
  {
    assert forall c <- a :: c in multiset(a);
    assert forall c <- b :: c in multiset(b);
  }

  /** Nodes that list the same members in any order present the same owner. */
  lemma PermutationsAgree(shared: Option<MemberId>, a: seq<Candidate>, b: seq<Candidate>, x: Option<MemberId>, y: Option<MemberId>)
    requires multiset(a) == multiset(b) && Owns(shared, a, x) && Owns(shared, b, y)
    ensures x == y
  {
    PermutationsAreSameMembers(a, b);
    OrderDoesNotMatter(shared, a, b, x, y);
  }

  /** A join can move the share only by winning it, wherever the joiner stands in the list. */
  lemma JoinMovesShareOnlyToJoiner(shared: Option<MemberId>, members: seq<Candidate>, joiner: Candidate, after: seq<Candidate>,
                                   before: Option<MemberId>, owner: Option<MemberId>)
    requires SameMembers(after, members + [joiner])
    requires Owns(shared, members, before) && Owns(shared, after, owner)
    ensures owner == before || owner == Some(joiner.id)
  {
    assert joiner in members + [joiner];
    if shared.Some? && shared.value != "" && !Online(after, shared.value) {
      var c :| Longest(after, c) && Some(c.id) == owner;
      if c in members {
        assert !Online(members, shared.value);
        var d :| Longest(members, d) && Some(d.id) == before;
        assert Longest(members, c) by {
          forall e <- members ensures !Precedes(e, c) { assert e in members + [joiner]; }
        }
        LongestIsUnique(members, c, d);
      }
    } else if shared.Some? && shared.value != "" && shared.value != joiner.id {
      var c :| c in after && c.id == shared.value;
      assert c in members;
    }
  }

  // ---- Leaving ----

  /** The member list as it stood while the leaver's session held its seat. */
  function MembersBefore(after: seq<Candidate>, leaving: Candidate): seq<Candidate> {
    if Online(after, leaving.id) then seq(|after|, i requires 0 <= i < |after| => if after[i].id == leaving.id then leaving else after[i])
    else after + [leaving]
  }

  method SharedVideoOwnerChangedOnLeave(shared: Option<MemberId>, after: seq<Candidate>, leaving: Candidate)
    returns (changed: bool)
    ensures forall before, owner :: Owns(shared, MembersBefore(after, leaving), before) && Owns(shared, after, owner) ==>
              (changed <==> before != owner)
  {
    var seated := exists c <- after :: c.id == leaving.id;
    var membersBefore := after + [leaving];
    if seated {
      membersBefore := [];
      for i := 0 to |after|
        invariant |membersBefore| == i
        invariant forall k | 0 <= k < i :: membersBefore[k] == if after[k].id == leaving.id then leaving else after[k]
      {
        membersBefore := membersBefore + [if after[i].id == leaving.id then leaving else after[i]];
      }
    }
    assert membersBefore == MembersBefore(after, leaving);
    var ownerBefore := ResolveSharedVideoOwnerId(shared, membersBefore);
    var ownerAfter := ResolveSharedVideoOwnerId(shared, after);
    OwnerIsUnique(shared, membersBefore);
    OwnerIsUnique(shared, after);
    return ownerBefore != ownerAfter;
  }

  /** Who else is in the list is the same before and after. */
  lemma OthersStay(after: seq<Candidate>, leaving: Candidate)
    ensures forall c: Candidate | c.id != leaving.id :: c in after <==> c in MembersBefore(after, leaving)
    ensures forall c: Candidate | c.id == leaving.id :: c in MembersBefore(after, leaving) ==> c == leaving
    ensures leaving in MembersBefore(after, leaving)
  {
    var before := MembersBefore(after, leaving);
    if Online(after, leaving.id) {
      forall c: Candidate | c.id != leaving.id
        ensures c in after <==> c in before
      {
        if c in after {
          var i :| 0 <= i < |after| && after[i] == c;
          assert before[i] == c;
        }
      }
      var l :| l in after && l.id == leaving.id;
      var i :| 0 <= i < |after| && after[i] == l;
      assert before[i] == leaving;
    } else {
      assert before[|after|] == leaving;
      assert forall i | 0 <= i < |after| :: before[i] == after[i];
    }
  }

  /** When neither answer is the leaver, both are the same member. */
  lemma BystanderKeepsShare(shared: MemberId, after: seq<Candidate>, leaving: Candidate, before: Option<MemberId>, owner: Option<MemberId>)
    requires after != [] && shared != ""
    requires Owns(Some(shared), MembersBefore(after, leaving), before) && Owns(Some(shared), after, owner)
    requires before != Some(leaving.id) && owner != Some(leaving.id)
    ensures before == owner
  {
    var was := MembersBefore(after, leaving);
    OthersStay(after, leaving);
    hide MembersBefore;
    assert Online(was, leaving.id);
    assert shared != leaving.id;
    if Online(after, shared) {
      assert Online(was, shared);
    } else {
      forall s <- was
        ensures s.id != shared
      {
        assert s in after || s == leaving;
      }
      var c :| Longest(was, c) && Some(c.id) == before;
      var d :| Longest(after, d) && Some(d.id) == owner;
      PrecedesIsStrictOrder(c, d, d);
    }
  }

  /** A member that gives up its seat in a room that stays non-empty moves the share exactly when it owned it. */
  lemma LeaveMovesShareIffLeaverOwned(shared: Option<MemberId>, after: seq<Candidate>, leaving: Candidate,
                                      before: Option<MemberId>, owner: Option<MemberId>)
    requires after != [] && !Online(after, leaving.id)
    requires Owns(shared, MembersBefore(after, leaving), before) && Owns(shared, after, owner)
    ensures before != owner <==> before == Some(leaving.id)
  {
    if shared.Some? && shared.value != "" {
      assert owner != Some(leaving.id) by {
        if !Online(after, shared.value) {
          var d :| Longest(after, d) && Some(d.id) == owner;
        }
      }
      if before != Some(leaving.id) {
        BystanderKeepsShare(shared.value, after, leaving, before, owner);
      }
    }
  }

  /** A session replaced while its member keeps the seat under a new tenure moves the share exactly when it is the
      owner on one side only. */
  lemma ReplacementMovesShareIffOwnerOnOneSide(shared: Option<MemberId>, after: seq<Candidate>, leaving: Candidate,
                                               before: Option<MemberId>, owner: Option<MemberId>)
    requires Online(after, leaving.id)
    requires Owns(shared, MembersBefore(after, leaving), before) && Owns(shared, after, owner)
    ensures before != owner <==> (before == Some(leaving.id)) != (owner == Some(leaving.id))
  {
    if shared.Some? && shared.value != "" && before != Some(leaving.id) && owner != Some(leaving.id) {
      BystanderKeepsShare(shared.value, after, leaving, before, owner);
    }
  }

  // ---- What a client is shown ----

  /** `member` is the session's member id, where it has one. */
  datatype Session = Session(id: string, member: Option<MemberId>, displayName: string, joinedAt: Option<int>, roomCode: Option<string>)

  function MemberOf(s: Session): MemberId {
    if s.member.Some? then s.member.value else s.id
  }

  /** Sessions that name the room, in order; the others are index residue. */
  function Candidates(code: string, sessions: seq<Session>): seq<Candidate> {
    if sessions == [] then []
    else
      var last := sessions[|sessions| - 1];
      Candidates(code, sessions[..|sessions| - 1]) +
        if last.roomCode == Some(code) then [Candidate(MemberOf(last), last.joinedAt)] else []
  }

  datatype Shown = Shown(members: map<MemberId, string>, owner: Option<MemberId>, ownerName: string)

  /** `name` is what the last session of the member that names the room is called. */
  predicate LastNamed(code: string, sessions: seq<Session>, m: MemberId, name: string) {
    exists i | 0 <= i < |sessions| :: NamedAt(code, sessions, i, m, name)
  }

  predicate NamedAt(code: string, sessions: seq<Session>, i: nat, m: MemberId, name: string) {
    && i < |sessions| && Speaks(code, sessions[i], m) && sessions[i].displayName == name
    && forall j | i < j < |sessions| :: !Speaks(code, sessions[j], m)
  }

  predicate Speaks(code: string, s: Session, m: MemberId) {
    s.roomCode == Some(code) && MemberOf(s) == m
  }

  lemma LastNamedSnoc(code: string, front: seq<Session>, s: Session, m: MemberId, name: string)
    requires if Speaks(code, s, m) then name == s.displayName else LastNamed(code, front, m, name)
    ensures LastNamed(code, front + [s], m, name)
  {
    if Speaks(code, s, m) {
      assert NamedAt(code, front + [s], |front|, m, name);
    } else {
      var i :| 0 <= i < |front| && NamedAt(code, front, i, m, name);
      assert NamedAt(code, front + [s], i, m, name);
    }
  }

  predicate Seats(code: string, s: Session, c: Candidate) {
    s.roomCode == Some(code) && c.joinedAt == s.joinedAt && (s.member == Some(c.id) || (s.member.None? && s.id == c.id))
  }

  /** The candidates are exactly the sessions that name the room, each as its member, or as itself without one. */
  lemma {:induction false} CandidatesNameTheRoom(code: string, sessions: seq<Session>, c: Candidate)
    ensures c in Candidates(code, sessions) <==> exists s <- sessions :: Seats(code, s, c)
  {
    if sessions != [] {
      var front, last := sessions[..|sessions| - 1], sessions[|sessions| - 1];
      CandidatesNameTheRoom(code, front, c);
      assert sessions == front + [last];
      assert last in sessions;
      if Seats(code, last, c) {
        assert c == Candidate(MemberOf(last), last.joinedAt);
      }
    }
  }

  /** A session at the end gives the member it seats its name, and no other member a name. */
  lemma LatestSessionNames(code: string, front: seq<Session>, s: Session, m: MemberId, name: string)
    ensures s.roomCode == Some(code) && (s.member == Some(m) || (s.member.None? && s.id == m)) ==>
              (LastNamed(code, front + [s], m, name) <==> name == s.displayName)
    ensures s.roomCode != Some(code) || (if s.member.Some? then s.member.value != m else s.id != m) ==>
              (LastNamed(code, front + [s], m, name) <==> LastNamed(code, front, m, name))
  {
    var all := front + [s];
    assert all[|front|] == s;
    if LastNamed(code, all, m, name) {
      var i :| 0 <= i < |all| && NamedAt(code, all, i, m, name);
      if !Speaks(code, s, m) {
        assert forall j | 0 <= j < |front| :: all[j] == front[j];
        assert NamedAt(code, front, i, m, name);
      }
    }
    if Speaks(code, s, m) {
      LastNamedSnoc(code, front, s, m, s.displayName);
    } else if LastNamed(code, front, m, name) {
      LastNamedSnoc(code, front, s, m, name);
    }
  }

  /** The stored name is kept while the stored sharer owns the share; a successor brings its own. */
  method RoomStateFromSessions(code: string, shared: Option<MemberId>, sharedName: string, sessions: seq<Session>)
    returns (shown: Shown)
    ensures Owns(shared, Candidates(code, sessions), shown.owner)
    ensures forall m :: m in shown.members <==> Online(Candidates(code, sessions), m)
    ensures forall m <- shown.members :: LastNamed(code, sessions, m, shown.members[m])
    ensures shown.owner == shared || shown.owner.None? ==> shown.ownerName == sharedName
    ensures shown.owner != shared && shown.owner.Some? ==> LastNamed(code, sessions, shown.owner.value, shown.ownerName)
  {
    var members: map<MemberId, string> := map[];
    var candidates: seq<Candidate> := [];
    for i := 0 to |sessions|
      invariant candidates == Candidates(code, sessions[..i])
      invariant forall m :: m in members <==> Online(candidates, m)
      invariant forall m <- members :: LastNamed(code, sessions[..i], m, members[m])
    {
      var session := sessions[i];
      ghost var had, named := candidates, members;
      assert sessions[..i + 1] == sessions[..i] + [session];
      if session.roomCode == Some(code) {
        members := members[MemberOf(session) := session.displayName];
        candidates := candidates + [Candidate(MemberOf(session), session.joinedAt)];
        assert candidates[|had|].id == MemberOf(session);
        assert forall c <- had :: c in candidates;
      }
      forall m <- members
        ensures LastNamed(code, sessions[..i + 1], m, members[m])
      {
        LastNamedSnoc(code, sessions[..i], session, m, members[m]);
      }
    }
    assert sessions[..|sessions|] == sessions;
    var owner := ResolveSharedVideoOwnerId(shared, candidates);
    var ownerName := sharedName;
    if owner != shared && owner.Some? {
      SuccessorIsOnline(shared, candidates, owner);
      ownerName := members[owner.value];
    }
    shown := Shown(members, owner, ownerName);
  }

  lemma SuccessorIsOnline(shared: Option<MemberId>, members: seq<Candidate>, owner: Option<MemberId>)
    requires Owns(shared, members, owner) && owner != shared && owner.Some?
    ensures Online(members, owner.value)
  {
    var c :| Longest(members, c) && c.id == owner.value;
  }

  lemma NamedWithout(code: string, front: seq<Session>, residue: Session, back: seq<Session>, i: nat, m: MemberId, name: string)
    requires residue.roomCode != Some(code) && NamedAt(code, front + [residue] + back, i, m, name)
    ensures i != |front| && NamedAt(code, front + back, if i < |front| then i else i - 1, m, name)
  {
    var all, rest := front + [residue] + back, front + back;
    forall j | 0 <= j < |rest|
      ensures rest[j] == all[if j < |front| then j else j + 1]
    {
    }
  }

  lemma NamedWith(code: string, front: seq<Session>, residue: Session, back: seq<Session>, i: nat, m: MemberId, name: string)
    requires residue.roomCode != Some(code) && NamedAt(code, front + back, i, m, name)
    ensures NamedAt(code, front + [residue] + back, if i < |front| then i else i + 1, m, name)
  {
    var all, rest := front + [residue] + back, front + back;
    forall j | 0 <= j < |all| && j != |front|
      ensures all[j] == rest[if j < |front| then j else j - 1]
    {
    }
  }

  lemma SilentIsNotNamed(code: string, front: seq<Session>, residue: Session, back: seq<Session>, m: MemberId, name: string)
    requires residue.roomCode != Some(code)
    ensures LastNamed(code, front + [residue] + back, m, name) <==> LastNamed(code, front + back, m, name)
  {
    var all, rest := front + [residue] + back, front + back;
    if LastNamed(code, all, m, name) {
      var i :| 0 <= i < |all| && NamedAt(code, all, i, m, name);
      NamedWithout(code, front, residue, back, i, m, name);
    }
    if LastNamed(code, rest, m, name) {
      var i :| 0 <= i < |rest| && NamedAt(code, rest, i, m, name);
      NamedWith(code, front, residue, back, i, m, name);
    }
    hide NamedAt;
  }

  lemma {:induction false} ResidueIsNoCandidate(code: string, front: seq<Session>, residue: Session, back: seq<Session>)
    requires residue.roomCode != Some(code)
    ensures Candidates(code, front + [residue] + back) == Candidates(code, front + back)
    decreases |back|
  {
    if back == [] {
      assert (front + [residue] + back)[..|front|] == front;
      assert front + back == front;
    } else {
      var init := back[..|back| - 1];
      ResidueIsNoCandidate(code, front, residue, init);
      assert (front + [residue] + back)[..|front| + |back|] == front + [residue] + init;
      assert (front + back)[..|front| + |back| - 1] == front + init;
    }
  }

  /** A session left behind in the room's index changes neither the roster, nor the owner, nor any name shown. */
  lemma ResidueIsInvisible(code: string, front: seq<Session>, residue: Session, back: seq<Session>)
    requires residue.roomCode != Some(code)
    ensures Candidates(code, front + [residue] + back) == Candidates(code, front + back)
    ensures forall m, name :: LastNamed(code, front + [residue] + back, m, name) <==> LastNamed(code, front + back, m, name)
  {
    ResidueIsNoCandidate(code, front, residue, back);
    forall m, name
      ensures LastNamed(code, front + [residue] + back, m, name) <==> LastNamed(code, front + back, m, name)
    {
      SilentIsNotNamed(code, front, residue, back, m, name);
    }
  }

  /** In a room with anybody in it, a share that has a stored sharer is owned by somebody on the roster. */
  lemma OwnerIsOnTheRoster(shared: MemberId, members: seq<Candidate>, owner: Option<MemberId>)
    requires members != [] && shared != "" && Owns(Some(shared), members, owner)
    ensures owner.Some? && Online(members, owner.value)
  {
    if !Online(members, shared) {
      var c :| Longest(members, c) && Some(c.id) == owner;
    }
  }
}
