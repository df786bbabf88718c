/**
 Cleanup debt: an index member that loses its body leaves a claim, and the claim stays until it is
 acknowledged under its current token or the code is seen in use again. No claim starves in the queue.
 */
module OrphanClaims {
  import opened Options
  import opened Rooms
  import opened RedisRoomScripts

  // ---- Any script of the store, or anything else that touches a body ----

  datatype Script =
    | CreateRoom(c: Code, room: Room, indexable: bool)
    | UpdateRoom(c: Code, raw: Room, next: Room, indexable: bool)
    | DeleteRoom(c: Code, joinToken: JoinToken)
    | DeleteExpiredRoom(c: Code, now: int)
    | PruneMembers(codes: seq<Code>, token: ClaimToken)
    | RepointMember(c: Code, raw: Room)
    | QuarantineBody(c: Code, seen: Option<Body>, token: ClaimToken)
    | SweepRooms(now: int, limit: nat, token: ClaimToken, order: seq<Code>)
    | AcknowledgeClaims(claims: seq<Orphan>)
    | OtherWriter(c: Code, body: Option<Body>)

  predicate CanSweep(st: Store, now: int, limit: nat, order: seq<Code>) {
    limit >= 1 && Lists(order, Candidates(st.index, now))
  }

  ghost function Apply(st: Store, e: Script): Store {
    match e
    case CreateRoom(c, room, indexable) => Create(st, c, room, indexable).0
    case UpdateRoom(c, raw, next, indexable) => Cas(st, c, raw, next, indexable).0
    case DeleteRoom(c, joinToken) => DeleteInstance(st, c, joinToken).0
    case DeleteExpiredRoom(c, now) => DeleteExpired(st, c, now).0
    case PruneMembers(codes, token) => Prune(st, codes, token)
    case RepointMember(c, raw) => ReconcileMember(st, c, raw, ExpiryScore(raw))
    case QuarantineBody(c, seen, token) => Quarantine(st, c, seen, token)
    case SweepRooms(now, limit, token, order) =>
      if CanSweep(st, now, limit, order) then SweepStore(st, now, limit, token, order).st else st
    case AcknowledgeClaims(claims) => st.(debts := Acknowledge(st.debts, claims))
    case OtherWriter(c, body) =>
      st.(bodies := if body.Some? then st.bodies[c := body.value] else st.bodies - {c})
  }

  ghost function Run(st: Store, es: seq<Script>): Store
    decreases |es|
  {
    if es == [] then st else Run(Apply(st, es[0]), es[1..])
  }

  function TokenOf(e: Script): Option<ClaimToken> {
    match e
    case PruneMembers(_, token) => Some(token)
    case QuarantineBody(_, _, token) => Some(token)
    case SweepRooms(_, _, token, _) => Some(token)
    case _ => None
  }

  // ---- Hash and queue hold the same codes ----

  predicate DebtsInv(d: Debts) {
    && d.tokens.Keys == d.queue.Keys
    && Distinct(d.queue)
    && (forall c <- d.queue :: d.queue[c] <= d.sequence)
  }

  /** Nobody is inserted ahead: a place is kept, given up, or taken behind everything queued before. */
  predicate Moves(d: Debts, d': Debts) {
    && d.sequence <= d'.sequence
    && (forall c <- d'.queue :: (c in d.queue && d'.queue[c] == d.queue[c]) || d'.queue[c] > d.sequence)
  }

  /** What staging with `token` may do to the claims. */
  predicate Adds(d: Debts, d': Debts, token: ClaimToken) {
    && d.tokens.Keys <= d'.tokens.Keys
    && (forall c <- d'.tokens :: d'.tokens[c] == token || (c in d.tokens && d'.tokens[c] == d.tokens[c]))
    && (forall c <- d.queue :: c in d'.queue && (d'.queue[c] == d.queue[c] || (c in d'.tokens && d'.tokens[c] == token)))
    && Moves(d, d')
  }

  lemma AddsTrans(a: Debts, b: Debts, c: Debts, token: ClaimToken)
    requires Adds(a, b, token) && Adds(b, c, token)
    ensures Adds(a, c, token)
  {
  }

  lemma RemoveIndexedAdds(st: Store, c: Code, token: ClaimToken)
    requires DebtsInv(st.debts)
    ensures var t := RemoveIndexed(st, c, token);
            DebtsInv(t.debts) && Adds(st.debts, t.debts, token) && t.bodies == st.bodies
  {
  }

  lemma {:induction false} PruneAdds(st: Store, codes: seq<Code>, token: ClaimToken)
    requires DebtsInv(st.debts)
    ensures var t := Prune(st, codes, token);
            DebtsInv(t.debts) && Adds(st.debts, t.debts, token) && t.bodies == st.bodies
  {
    if codes != [] {
      var t := Prune(st, codes[..|codes| - 1], token);
      PruneAdds(st, codes[..|codes| - 1], token);
      var c := codes[|codes| - 1];
      if c !in st.bodies {
        RemoveIndexedAdds(t, c, token);
        AddsTrans(st.debts, t.debts, RemoveIndexed(t, c, token).debts, token);
      }
    }
  }

  // ---- The two halves of a sweep ----

  /** What delivering staged claims may do: a claim goes only where the body is usable. */
  predicate Delivers(w: Sweep, w': Sweep) {
    && w'.st.bodies == w.st.bodies && w'.st.index == w.st.index && w'.deleted == w.deleted
    && (forall c <- w'.st.debts.tokens :: c in w.st.debts.tokens && w'.st.debts.tokens[c] == w.st.debts.tokens[c])
    && (forall c <- w.st.debts.tokens :: c in w'.st.debts.tokens || (c in w.st.bodies && w.st.bodies[c].Usable?))
    && Moves(w.st.debts, w'.st.debts)
  }

  lemma DeliversTrans(a: Sweep, b: Sweep, c: Sweep)
    requires Delivers(a, b) && Delivers(b, c)
    ensures Delivers(a, c)
  {
  }

  lemma RotateKeeps(d: Debts, c: Code)
    requires DebtsInv(d) && c in d.tokens
    ensures DebtsInv(Rotate(d, c)) && Moves(d, Rotate(d, c))
  {
  }

  lemma VisitStagedDelivers(w: Sweep, c: Code)
    requires DebtsInv(w.st.debts)
    ensures DebtsInv(VisitStaged(w, c).st.debts) && Delivers(w, VisitStaged(w, c))
  {
    var d := w.st.debts;
    if c !in d.tokens {
      assert d.queue - {c} == d.queue;
    } else if c !in w.st.bodies || !w.st.bodies[c].Usable? {
      RotateKeeps(d, c);
      hide DebtsInv, Moves;
    } else {
      hide Report;
    }
  }

  lemma {:induction false} VisitAllStagedDelivers(w: Sweep, batch: seq<Code>)
    requires DebtsInv(w.st.debts)
    ensures DebtsInv(VisitAllStaged(w, batch).st.debts) && Delivers(w, VisitAllStaged(w, batch))
  {
    if batch != [] {
      hide VisitStaged, Delivers;
      var v := VisitAllStaged(w, batch[..|batch| - 1]);
      VisitAllStagedDelivers(w, batch[..|batch| - 1]);
      VisitStagedDelivers(v, batch[|batch| - 1]);
      DeliversTrans(w, v, VisitStaged(v, batch[|batch| - 1]));
    } else {
      assert Delivers(w, w);
    }
  }

  lemma VisitCandidateAdds(w: Sweep, c: Code, now: int, token: ClaimToken)
    requires DebtsInv(w.st.debts)
    ensures var v := VisitCandidate(w, c, now, token);
            DebtsInv(v.st.debts) && Adds(w.st.debts, v.st.debts, token)
  {
    RemoveIndexedAdds(w.st, c, token);
    assert Adds(w.st.debts, w.st.debts, token);
    hide RemoveIndexed, Adds, DebtsInv, Report;
  }

  lemma {:induction false} VisitAllCandidatesAdds(w: Sweep, order: seq<Code>, now: int, token: ClaimToken)
    requires DebtsInv(w.st.debts)
    ensures var v := VisitAllCandidates(w, order, now, token);
            DebtsInv(v.st.debts) && Adds(w.st.debts, v.st.debts, token)
  {
    if order != [] {
      hide VisitCandidate, Adds;
      var v := VisitAllCandidates(w, order[..|order| - 1], now, token);
      VisitAllCandidatesAdds(w, order[..|order| - 1], now, token);
      VisitCandidateAdds(v, order[|order| - 1], now, token);
      AddsTrans(w.st.debts, v.st.debts, VisitCandidate(v, order[|order| - 1], now, token).st.debts, token);
    } else {
      assert Adds(w.st.debts, w.st.debts, token);
    }
  }

  /** The state between the two halves. */
  ghost function Delivered(st: Store, limit: nat): Sweep {
    VisitAllStaged(Sweep(st, [], []), Batch(st.debts, limit))
  }

  lemma SweepParts(st: Store, now: int, limit: nat, token: ClaimToken, order: seq<Code>)
    requires DebtsInv(st.debts)
    ensures var v := Delivered(st, limit);
            var w := SweepStore(st, now, limit, token, order);
            && DebtsInv(v.st.debts) && Delivers(Sweep(st, [], []), v)
            && DebtsInv(w.st.debts) && Adds(v.st.debts, w.st.debts, token)
  {
    hide Delivers, Adds, DebtsInv;
    VisitAllStagedDelivers(Sweep(st, [], []), Batch(st.debts, limit));
    VisitAllCandidatesAdds(Delivered(st, limit), order, now, token);
  }

  // ---- Acknowledging ----

  /** What acknowledging these claims leaves. */
  predicate Acknowledged(d: Debts, claims: seq<Orphan>, d': Debts)
    requires DebtsInv(d)
  {
    && DebtsInv(d') && Moves(d, d') && d'.tokens.Keys <= d.tokens.Keys
    && (forall c <- d'.tokens :: d'.tokens[c] == d.tokens[c] && d'.queue[c] == d.queue[c])
    && (forall c <- d.tokens :: c in d'.tokens <==> Orphan(c, d.tokens[c]) !in claims)
  }

  lemma AcknowledgeOne(d: Debts, front: seq<Orphan>, d1: Debts, o: Orphan)
    requires DebtsInv(d) && Acknowledged(d, front, d1)
    ensures Acknowledged(d, front + [o], if o.code in d1.tokens && d1.tokens[o.code] == o.token then Drop(d1, o.code) else d1)
  {
  }

  lemma {:induction false} AcknowledgeDrops(d: Debts, claims: seq<Orphan>)
    requires DebtsInv(d)
    ensures var d' := Acknowledge(d, claims);
            && DebtsInv(d') && Moves(d, d') && d'.tokens.Keys <= d.tokens.Keys
            && (forall c <- d'.tokens :: d'.tokens[c] == d.tokens[c] && d'.queue[c] == d.queue[c])
            && (forall c <- d.tokens :: c in d'.tokens <==> Orphan(c, d.tokens[c]) !in claims)
  {
    if claims != [] {
      var front := claims[..|claims| - 1];
      AcknowledgeDrops(d, front);
      AcknowledgeOne(d, front, Acknowledge(d, front), claims[|claims| - 1]);
      assert claims == front + [claims[|claims| - 1]];
      hide DebtsInv, Moves;
    }
  }

  // ---- Debt is conserved ----

  /** The two ways a claim may end. */
  predicate Settles(st: Store, e: Script, c: Code)
    requires c in st.debts.tokens
  {
    || (e.AcknowledgeClaims? && Orphan(c, st.debts.tokens[c]) in e.claims)
    || (e.SweepRooms? && c in st.bodies && st.bodies[c].Usable?)
  }

  lemma SweepClaims(st: Store, now: int, limit: nat, token: ClaimToken, order: seq<Code>)
    requires DebtsInv(st.debts)
    ensures var d := SweepStore(st, now, limit, token, order).st.debts;
            && DebtsInv(d) && Moves(st.debts, d)
            && (forall c <- st.debts.tokens :: c in d.tokens || (c in st.bodies && st.bodies[c].Usable?))
            && (forall c <- d.tokens :: (c in st.debts.tokens && d.tokens[c] == st.debts.tokens[c]) || d.tokens[c] == token)
  {
    SweepParts(st, now, limit, token, order);
    hide SweepStore, Batch, VisitAllStaged, DebtsInv;
  }

  lemma BodyScriptsLeaveDebts(st: Store, e: Script)
    requires TokenOf(e).None? && !e.AcknowledgeClaims?
    ensures Apply(st, e).debts == st.debts
  {
  }

  /** What one script may do to the claims. */
  predicate ClaimsKept(st: Store, e: Script, d: Debts) {
    && DebtsInv(d) && Moves(st.debts, d)
    && (forall c <- st.debts.tokens :: Settles(st, e, c) || c in d.tokens)
    && (forall c <- d.tokens :: (c in st.debts.tokens && d.tokens[c] == st.debts.tokens[c]) || TokenOf(e) == Some(d.tokens[c]))
  }

  lemma StagingKeeps(st: Store, e: Script, d: Debts, token: ClaimToken)
    requires DebtsInv(d) && Adds(st.debts, d, token) && TokenOf(e) == Some(token)
    ensures ClaimsKept(st, e, d)
  {
    hide DebtsInv, Moves, Settles;
  }

  lemma SweepKeeps(st: Store, now: int, limit: nat, token: ClaimToken, order: seq<Code>)
    requires DebtsInv(st.debts)
    ensures ClaimsKept(st, SweepRooms(now, limit, token, order), SweepStore(st, now, limit, token, order).st.debts)
  {
    hide SweepStore, DebtsInv, Moves;
    SweepClaims(st, now, limit, token, order);
  }

  lemma AcknowledgingKeeps(st: Store, claims: seq<Orphan>)
    requires DebtsInv(st.debts)
    ensures ClaimsKept(st, AcknowledgeClaims(claims), Acknowledge(st.debts, claims))
  {
    AcknowledgeDrops(st.debts, claims);
    hide DebtsInv, Moves, Acknowledge;
  }

  lemma UntouchedIsKept(st: Store, e: Script)
    requires DebtsInv(st.debts)
    ensures ClaimsKept(st, e, st.debts)
  {
    hide DebtsInv, Settles;
  }

  lemma EveryScriptKeeps(st: Store, e: Script)
    requires DebtsInv(st.debts)
    ensures ClaimsKept(st, e, Apply(st, e).debts)
  {
    hide ClaimsKept, DebtsInv, Adds, Prune, RemoveIndexed, SweepStore, CanSweep, Acknowledge;
    UntouchedIsKept(st, e);
    match e {
      case PruneMembers(codes, token) =>
        PruneAdds(st, codes, token);
        StagingKeeps(st, e, Prune(st, codes, token).debts, token);
      case QuarantineBody(c, _, token) =>
        RemoveIndexedAdds(st, c, token);
        StagingKeeps(st, e, RemoveIndexed(st, c, token).debts, token);
      case SweepRooms(now, limit, token, order) => SweepKeeps(st, now, limit, token, order);
      case AcknowledgeClaims(claims) => AcknowledgingKeeps(st, claims);
      case _ =>
        BodyScriptsLeaveDebts(st, e);
        hide Apply;
    }
  }

  /** One script, seen from the claims. */
  lemma ClaimsStep(st: Store, e: Script)
    requires DebtsInv(st.debts)
    ensures DebtsInv(Apply(st, e).debts)
    ensures Moves(st.debts, Apply(st, e).debts)
    ensures forall c <- st.debts.tokens :: Settles(st, e, c) || c in Apply(st, e).debts.tokens
    ensures forall c <- Apply(st, e).debts.tokens ::
              || (c in st.debts.tokens && Apply(st, e).debts.tokens[c] == st.debts.tokens[c])
              || TokenOf(e) == Some(Apply(st, e).debts.tokens[c])
  {
    EveryScriptKeeps(st, e);
    hide Apply, DebtsInv, Moves, Settles, TokenOf;
  }

  lemma {:induction false} PruneClaims(st: Store, codes: seq<Code>, token: ClaimToken)
    requires DebtsInv(st.debts)
    ensures var t := Prune(st, codes, token);
            forall c <- st.index :: c in t.index || (c in t.debts.tokens && t.debts.tokens[c] == token)
  {
    if codes != [] {
      var front := codes[..|codes| - 1];
      PruneClaims(st, front, token);
      PruneAdds(st, front, token);
      RemoveIndexedAdds(Prune(st, front, token), codes[|codes| - 1], token);
    }
  }

  lemma VisitCandidateClaims(w: Sweep, c: Code, now: int, token: ClaimToken)
    ensures var v := VisitCandidate(w, c, now, token);
            && (forall x <- w.deleted :: x in v.deleted)
            && forall x <- w.st.index ::
                 x in v.st.index || x in v.deleted || (x in v.st.debts.tokens && v.st.debts.tokens[x] == token)
  {
    hide Report;
  }

  lemma {:induction false} CandidatesClaimOrDelete(w: Sweep, order: seq<Code>, now: int, token: ClaimToken)
    requires DebtsInv(w.st.debts)
    ensures var v := VisitAllCandidates(w, order, now, token);
            forall c <- w.st.index ::
              c in v.st.index || c in v.deleted || (c in v.st.debts.tokens && v.st.debts.tokens[c] == token)
  {
    if order != [] {
      var front := order[..|order| - 1];
      CandidatesClaimOrDelete(w, front, now, token);
      VisitAllCandidatesAdds(w, front, now, token);
      var v := VisitAllCandidates(w, front, now, token);
      VisitCandidateAdds(v, order[|order| - 1], now, token);
      VisitCandidateClaims(v, order[|order| - 1], now, token);
      hide DebtsInv, Moves, VisitCandidate;
    }
  }

  /** Whatever prune, quarantine or sweep takes out of the index is claimed under that script's own token,
      except the rooms a sweep itself deleted and reports as such. */
  lemma RemovedMembersAreClaimed(st: Store, e: Script, c: Code)
    requires DebtsInv(st.debts) && TokenOf(e).Some?
    requires c in st.index && c !in Apply(st, e).index
    ensures || (c in Apply(st, e).debts.tokens && Apply(st, e).debts.tokens[c] == TokenOf(e).value)
            || (e.SweepRooms? && c in SweepStore(st, e.now, e.limit, e.token, e.order).deleted)
  {
    match e {
      case PruneMembers(codes, token) => PruneClaims(st, codes, token);
      case QuarantineBody(_, _, _) =>
      case SweepRooms(now, limit, token, order) =>
        SweepParts(st, now, limit, token, order);
        CandidatesClaimOrDelete(Delivered(st, limit), order, now, token);
        hide VisitAllCandidates, VisitAllStaged, Adds, DebtsInv, Moves;
    }
  }

  lemma {:induction false} DebtsInvRun(st: Store, es: seq<Script>)
    requires DebtsInv(st.debts)
    ensures DebtsInv(Run(st, es).debts)
    decreases |es|
  {
    if es != [] {
      ClaimsStep(st, es[0]);
      hide DebtsInv, Apply, Moves;
      DebtsInvRun(Apply(st, es[0]), es[1..]);
    }
  }

  lemma RunTail(st: Store, es: seq<Script>, k: nat)
    requires k + 1 < |es|
    ensures Run(st, es[..k + 1]) == Run(Apply(st, es[0]), es[1..][..k]) && es[k + 1] == es[1..][k]
  {
    hide Apply;
    assert es[..k + 1][1..] == es[1..][..k];
  }

  /** A claim lasts until the first step that acknowledges its current token or sweeps a usable body. */
  lemma {:induction false} DebtLastsUntilSettled(st: Store, es: seq<Script>, c: Code)
    requires DebtsInv(st.debts) && c in st.debts.tokens
    requires forall k | 0 <= k < |es| ::
               var s := Run(st, es[..k]); c in s.debts.tokens ==> !Settles(s, es[k], c)
    ensures c in Run(st, es).debts.tokens
    decreases |es|
  {
    if es != [] {
      var t := Apply(st, es[0]);
      ClaimsStep(st, es[0]);
      assert es[..0] == [];
      assert !Settles(st, es[0], c);
      hide DebtsInv, Apply, Moves, Settles;
      forall k | 0 <= k < |es[1..]|
        ensures var s := Run(t, es[1..][..k]); c in s.debts.tokens ==> !Settles(s, es[1..][k], c)
      {
        RunTail(st, es, k);
      }
      DebtLastsUntilSettled(t, es[1..], c);
    }
  }

  predicate Carries(st: Store, c: Code, token: ClaimToken) {
    c in st.debts.tokens && st.debts.tokens[c] == token
  }

  /** Tokens are fresh, so once a discovery's token is replaced or gone it never comes back. */
  lemma {:induction false} ReplacedTokenNeverReturns(st: Store, es: seq<Script>, c: Code, token: ClaimToken)
    requires DebtsInv(st.debts) && !Carries(st, c, token)
    requires forall e <- es :: TokenOf(e) != Some(token)
    ensures !Carries(Run(st, es), c, token)
    decreases |es|
  {
    if es != [] {
      ClaimsStep(st, es[0]);
      assert es[0] in es;
      hide DebtsInv, Apply, Moves;
      ReplacedTokenNeverReturns(Apply(st, es[0]), es[1..], c, token);
    }
  }

  /** Acknowledging an older discovery, however late, leaves the newer claim of that code alone. */
  lemma LateAcknowledgementIsHarmless(st: Store, es: seq<Script>, c: Code, token: ClaimToken, claims: seq<Orphan>)
    requires DebtsInv(st.debts) && !Carries(st, c, token)
    requires forall e <- es :: TokenOf(e) != Some(token)
    requires forall o <- claims :: o.code == c ==> o.token == token
    ensures var s := Run(st, es);
            var t := Apply(s, AcknowledgeClaims(claims));
            forall other :: Carries(t, c, other) <==> Carries(s, c, other)
  {
    DebtsInvRun(st, es);
    ReplacedTokenNeverReturns(st, es, c, token);
    AcknowledgeDrops(Run(st, es).debts, claims);
  }

  // ---- What a sweep reports ----

  /** Each reported code once, without a body, under the token its claim now has. */
  ghost predicate Reported(orphans: seq<Orphan>, st: Store) {
    && (forall o <- orphans :: Carries(st, o.code, o.token) && o.code !in st.bodies)
    && (forall i, j :: 0 <= i < j < |orphans| ==> orphans[i].code != orphans[j].code)
  }

  lemma {:induction false} ReportReplaces(orphans: seq<Orphan>, c: Code, token: ClaimToken)
    requires forall i, j :: 0 <= i < j < |orphans| ==> orphans[i].code != orphans[j].code
    ensures var r := Report(orphans, c, token);
            && Orphan(c, token) in r
            && (forall o <- r :: o == Orphan(c, token) || (o.code != c && o in orphans))
            && (forall o <- orphans :: o.code != c ==> o in r)
            && (forall i, j :: 0 <= i < j < |r| ==> r[i].code != r[j].code)
  {
    if orphans != [] && orphans[0].code != c {
      ReportReplaces(orphans[1..], c, token);
      var r := Report(orphans[1..], c, token);
      assert forall o <- r :: o.code != orphans[0].code;
      assert Report(orphans, c, token) == [orphans[0]] + r;
      assert forall o <- orphans :: o == orphans[0] || o in orphans[1..];
    }
  }

  lemma VisitStagedReports(w: Sweep, c: Code)
    requires DebtsInv(w.st.debts) && Reported(w.orphans, w.st)
    ensures Reported(VisitStaged(w, c).orphans, VisitStaged(w, c).st)
    ensures forall o <- w.orphans :: o in VisitStaged(w, c).orphans
    ensures c in w.st.debts.tokens && c !in w.st.bodies ==> Orphan(c, w.st.debts.tokens[c]) in VisitStaged(w, c).orphans
  {
    if c in w.st.debts.tokens && c !in w.st.bodies {
      ReportReplaces(w.orphans, c, w.st.debts.tokens[c]);
    }
    hide DebtsInv, Report;
  }

  lemma OneMoreReported(w: Sweep, v: Sweep, front: seq<Code>, c: Code)
    requires Delivers(w, v)
    requires forall o <- v.orphans :: o in VisitStaged(v, c).orphans
    requires c in v.st.debts.tokens && c !in v.st.bodies ==> Orphan(c, v.st.debts.tokens[c]) in VisitStaged(v, c).orphans
    requires forall x <- front :: x in w.st.debts.tokens && x !in w.st.bodies ==> Orphan(x, w.st.debts.tokens[x]) in v.orphans
    ensures forall x <- front + [c] :: x in w.st.debts.tokens && x !in w.st.bodies ==>
              Orphan(x, w.st.debts.tokens[x]) in VisitStaged(v, c).orphans
  {
    hide VisitStaged, Moves;
    forall x <- front + [c] | x in w.st.debts.tokens && x !in w.st.bodies
      ensures Orphan(x, w.st.debts.tokens[x]) in VisitStaged(v, c).orphans
    {
      assert x in v.st.debts.tokens && v.st.debts.tokens[x] == w.st.debts.tokens[x];
    }
  }

  /** Every claim of the batch whose room has no body is reported. */
  lemma {:induction false} VisitAllStagedReports(w: Sweep, batch: seq<Code>)
    requires DebtsInv(w.st.debts) && Reported(w.orphans, w.st)
    ensures var v := VisitAllStaged(w, batch);
            && Reported(v.orphans, v.st)
            && forall c <- batch :: c in w.st.debts.tokens && c !in w.st.bodies ==> Orphan(c, w.st.debts.tokens[c]) in v.orphans
  {
    hide VisitStaged, Reported, DebtsInv, Moves, Delivers;
    if batch != [] {
      var front, c := batch[..|batch| - 1], batch[|batch| - 1];
      var v := VisitAllStaged(w, front);
      VisitAllStagedReports(w, front);
      VisitAllStagedDelivers(w, front);
      VisitStagedReports(v, c);
      assert batch == front + [c];
      assert VisitAllStaged(w, batch) == VisitStaged(v, c);
      hide VisitAllStaged;
      OneMoreReported(w, v, front, c);
    }
  }

  lemma VisitCandidateReports(w: Sweep, c: Code, now: int, token: ClaimToken)
    requires DebtsInv(w.st.debts) && Reported(w.orphans, w.st)
    ensures var v := VisitCandidate(w, c, now, token);
            && Reported(v.orphans, v.st)
            && forall o <- w.orphans :: exists p <- v.orphans :: p.code == o.code
  {
    if c !in w.st.bodies && c in w.st.index {
      ReportReplaces(w.orphans, c, token);
    }
    hide DebtsInv, Report, Rotate;
  }

  lemma {:induction false} VisitAllCandidatesReports(w: Sweep, order: seq<Code>, now: int, token: ClaimToken)
    requires DebtsInv(w.st.debts) && Reported(w.orphans, w.st)
    ensures var v := VisitAllCandidates(w, order, now, token);
            && Reported(v.orphans, v.st)
            && forall o <- w.orphans :: exists p <- v.orphans :: p.code == o.code
  {
    if order != [] {
      var front := order[..|order| - 1];
      VisitAllCandidatesReports(w, front, now, token);
      VisitAllCandidatesAdds(w, front, now, token);
      VisitCandidateReports(VisitAllCandidates(w, front, now, token), order[|order| - 1], now, token);
      hide VisitCandidate, Reported, DebtsInv, Adds;
    }
  }

  /** A sweep reports each orphan once, under the token left in the claim hash; among them every claim of
      its batch whose room has no body. */
  lemma SweepReportsItsBatch(st: Store, now: int, limit: nat, token: ClaimToken, order: seq<Code>)
    requires DebtsInv(st.debts)
    ensures var w := SweepStore(st, now, limit, token, order);
            && Reported(w.orphans, w.st)
            && forall c <- Batch(st.debts, limit) :: c in st.debts.tokens && c !in st.bodies ==> exists o <- w.orphans :: o.code == c
  {
    var v := Delivered(st, limit);
    VisitAllStagedReports(Sweep(st, [], []), Batch(st.debts, limit));
    VisitAllStagedDelivers(Sweep(st, [], []), Batch(st.debts, limit));
    VisitAllCandidatesReports(v, order, now, token);
    hide VisitAllStaged, VisitAllCandidates, Reported, DebtsInv, Moves;
  }

  // ---- No claim starves ----

  function AheadOf(d: Debts, c: Code): set<Code>
    requires c in d.queue
  {
    set x | x in d.queue && d.queue[x] < d.queue[c]
  }

  predicate Ascending(queue: map<Code, nat>, codes: seq<Code>) {
    && (forall c <- codes :: c in queue)
    && (forall i, j :: 0 <= i < j < |codes| ==> codes[i] in queue && codes[j] in queue && queue[codes[i]] <= queue[codes[j]])
  }

  lemma {:induction false} RankedLists(queue: map<Code, nat>)
    ensures Lists(Ranked(queue), queue.Keys)
    decreases |queue|
  {
    if queue != map[] {
      var c := First(queue);
      var rest := queue - {c};
      assert rest.Keys == queue.Keys - {c};
      RankedLists(rest);
      assert Ranked(queue) == [c] + Ranked(rest);
    }
  }

  lemma ConsAscends(queue: map<Code, nat>, c: Code, codes: seq<Code>)
    requires c in queue && Ascending(queue, codes)
    requires forall x <- codes :: queue[c] <= queue[x]
    ensures Ascending(queue, [c] + codes)
  {
  }

  lemma AscendsIn(queue: map<Code, nat>, rest: map<Code, nat>, codes: seq<Code>)
    requires forall x <- rest :: x in queue && queue[x] == rest[x]
    requires Ascending(rest, codes)
    ensures Ascending(queue, codes)
  {
  }

  lemma {:induction false} RankedAscends(queue: map<Code, nat>)
    ensures Ascending(queue, Ranked(queue))
    decreases |queue|
  {
    if queue != map[] {
      var c := First(queue);
      var rest := queue - {c};
      assert rest.Keys == queue.Keys - {c};
      RankedAscends(rest);
      RankedUnfolds(queue);
      RankedLists(rest);
      hide Ranked;
      AscendsIn(queue, rest, Ranked(rest));
      hide Ascending;
      ConsAscends(queue, c, Ranked(rest));
    }
  }

  lemma RankedUnfolds(queue: map<Code, nat>)
    requires queue != map[]
    ensures Ranked(queue) == [First(queue)] + Ranked(queue - {First(queue)})
  {
  }

  lemma ListsCount(codes: seq<Code>, all: set<Code>)
    requires Lists(codes, all)
    ensures |codes| == |all|
  {
    if codes == [] {
      assert all == {};
    } else {
      var c := codes[|codes| - 1];
      assert codes == codes[..|codes| - 1] + [c];
      ListsCount(codes[..|codes| - 1], all - {c});
    }
  }

  lemma PrefixIsAhead(d: Debts, all: seq<Code>, n: nat, c: Code)
    requires Distinct(d.queue) && Lists(all, d.queue.Keys) && Ascending(d.queue, all)
    requires n <= |all| && c in d.queue && c !in all[..n]
    ensures forall x <- all[..n] :: x in AheadOf(d, c)
    ensures n < |all|
  {
    var k :| 0 <= k < |all| && all[k] == c;
    assert forall i | 0 <= i < n :: all[i] in all[..n];
    forall x <- all[..n]
      ensures x in AheadOf(d, c)
    {
      var i :| 0 <= i < n && all[..n][i] == x;
      assert all[i] == x && all[i] != all[k];
    }
  }

  /** A claim outside the batch has at least `limit - 1` claims of the batch ahead of it. */
  lemma BatchIsAhead(d: Debts, limit: nat, c: Code)
    requires DebtsInv(d) && limit >= 1 && c in d.queue && c !in Batch(d, limit)
    ensures forall x <- Batch(d, limit) :: x in AheadOf(d, c)
    ensures |Batch(d, limit)| >= limit - 1
    ensures |set x | x in Batch(d, limit)| == |Batch(d, limit)|
  {
    RankedLists(d.queue);
    RankedAscends(d.queue);
    PrefixCounts(Ranked(d.queue), Slots(d, limit), d.queue.Keys);
    assert |Ranked(d.queue)| == |d.queue|;
    hide Ranked, Ascending, Lists, AheadOf;
    PrefixIsAhead(d, Ranked(d.queue), Slots(d, limit), c);
  }

  lemma PrefixCounts(all: seq<Code>, n: nat, codes: set<Code>)
    requires Lists(all, codes) && n <= |all|
    ensures |set x | x in all[..n]| == n
  {
    assert Lists(all[..n], set x | x in all[..n]);
    hide Lists;
    ListsCount(all[..n], set x | x in all[..n]);
  }

  lemma VisitStagedGivesWay(w: Sweep, x: Code)
    requires DebtsInv(w.st.debts)
    ensures var d := VisitStaged(w, x).st.debts; x !in d.queue || d.queue[x] > w.st.debts.sequence
  {
    hide Report;
  }

  lemma {:induction false} BatchGivesWay(w: Sweep, batch: seq<Code>, bound: nat)
    requires DebtsInv(w.st.debts) && bound <= w.st.debts.sequence
    ensures forall x <- batch ::
              var d := VisitAllStaged(w, batch).st.debts; x !in d.queue || d.queue[x] > bound
  {
    if batch != [] {
      var front, x := batch[..|batch| - 1], batch[|batch| - 1];
      BatchGivesWay(w, front, bound);
      VisitAllStagedDelivers(w, front);
      VisitStagedDelivers(VisitAllStaged(w, front), x);
      VisitStagedGivesWay(VisitAllStaged(w, front), x);
      assert batch == front + [x];
      hide VisitStaged, DebtsInv;
    }
  }

  lemma AheadShrinks(d: Debts, d': Debts, c: Code)
    requires DebtsInv(d) && Moves(d, d') && c in d.queue && c in d'.queue && d'.queue[c] == d.queue[c]
    ensures AheadOf(d', c) <= AheadOf(d, c)
  {
  }

  lemma PassedIsBehind(d0: Debts, d1: Debts, d: Debts, batch: seq<Code>, c: Code)
    requires DebtsInv(d0) && Moves(d0, d1) && Moves(d1, d)
    requires forall x <- batch :: x !in d1.queue || d1.queue[x] > d0.sequence
    requires c in d0.queue && c in d.queue && d.queue[c] == d0.queue[c]
    ensures forall x <- AheadOf(d, c) :: x in AheadOf(d0, c) && x !in batch
  {
    forall x <- AheadOf(d, c)
      ensures x in AheadOf(d0, c) && x !in batch
    {
      assert d.queue[x] < d0.queue[c] <= d0.sequence;
      assert x in d1.queue && d1.queue[x] == d.queue[x];
    }
  }

  /** A sweep that passes a claim over brings it at least `limit - 1` places forward. */
  lemma SweepAdvances(st: Store, now: int, limit: nat, token: ClaimToken, order: seq<Code>, c: Code)
    requires DebtsInv(st.debts) && limit >= 1
    requires c in st.debts.queue && c !in Batch(st.debts, limit)
    ensures var d := SweepStore(st, now, limit, token, order).st.debts;
            c in d.queue && d.queue[c] == st.debts.queue[c] ==> |AheadOf(d, c)| + limit - 1 <= |AheadOf(st.debts, c)|
  {
    var d0, d := st.debts, SweepStore(st, now, limit, token, order).st.debts;
    if c in d.queue && d.queue[c] == d0.queue[c] {
      var batch := Batch(d0, limit);
      BatchIsAhead(d0, limit, c);
      BatchGivesWay(Sweep(st, [], []), batch, d0.sequence);
      SweepParts(st, now, limit, token, order);
      var d1 := Delivered(st, limit).st.debts;
      assert Moves(d0, d1) && Moves(d1, d);
      hide SweepStore, Batch, VisitAllStaged, DebtsInv, Moves, Delivers, Adds;
      PassedIsBehind(d0, d1, d, batch, c);
      hide AheadOf;
      var passed := set x | x in batch;
      assert passed <= AheadOf(d0, c) && AheadOf(d, c) <= AheadOf(d0, c) - passed;
      SetCardinality(AheadOf(d, c), AheadOf(d0, c) - passed);
    }
  }

  function SweepCount(es: seq<Script>): nat {
    if es == [] then 0 else (if es[0].SweepRooms? then 1 else 0) + SweepCount(es[1..])
  }

  /** Every sweep of the run is a real one with that batch limit, and none delivers `c`. */
  ghost predicate PassesOver(st: Store, es: seq<Script>, limit: nat, c: Code)
    decreases |es|
  {
    es == [] ||
    var e := es[0];
    && (e.SweepRooms? ==> e.limit == limit && CanSweep(st, e.now, e.limit, e.order) && c !in Batch(st.debts, limit))
    && c in st.debts.queue && c in Apply(st, e).debts.queue
    && Apply(st, e).debts.queue[c] == st.debts.queue[c]
    && PassesOver(Apply(st, e), es[1..], limit, c)
  }

  /** While a claim keeps its place, every sweep that does not deliver it moves it forward: whatever else
      arrives or stays unacknowledged, it can be passed over at most `ahead / (limit - 1)` times. */
  lemma {:induction false} PassedOverBoundedly(st: Store, es: seq<Script>, limit: nat, c: Code)
    requires DebtsInv(st.debts) && c in st.debts.queue && PassesOver(st, es, limit, c)
    ensures c in Run(st, es).debts.queue
    ensures SweepCount(es) * (limit - 1) + |AheadOf(Run(st, es).debts, c)| <= |AheadOf(st.debts, c)|
    decreases |es|
  {
    if es != [] {
      var e, t := es[0], Apply(st, es[0]);
      ClaimsStep(st, e);
      PassedOverBoundedly(t, es[1..], limit, c);
      AheadShrinks(st.debts, t.debts, c);
      SetCardinality(AheadOf(t.debts, c), AheadOf(st.debts, c));
      if e.SweepRooms? {
        SweepAdvances(st, e.now, e.limit, e.token, e.order, c);
        assert (1 + SweepCount(es[1..])) * (limit - 1) == SweepCount(es[1..]) * (limit - 1) + (limit - 1);
      }
      hide Apply, DebtsInv, Moves, AheadOf, PassesOver;
    }
  }

  lemma SetCardinality(a: set<Code>, b: set<Code>)
    requires a <= b
    ensures |a| <= |b|
  {
    assert b == a + (b - a);
  }

  lemma AtLeastItself(n: nat, k: nat)
    requires k >= 1
    ensures n * k >= n
  {
  }

  /** With a batch of at least two, no run with more sweeps than claims ahead passes a claim over. */
  lemma NoStarvation(st: Store, es: seq<Script>, limit: nat, c: Code)
    requires DebtsInv(st.debts) && c in st.debts.queue && limit >= 2
    requires SweepCount(es) > |AheadOf(st.debts, c)|
    ensures !PassesOver(st, es, limit, c)
  {
    if PassesOver(st, es, limit, c) {
      PassedOverBoundedly(st, es, limit, c);
      AtLeastItself(SweepCount(es), limit - 1);
      hide *;
      assert false;
    }
  }

  // ---- Nothing but a visit, an acknowledgement or a new discovery moves a claim ----

  /** The claim of `c` keeps its place and its token. */
  predicate Held(d: Debts, d': Debts, c: Code) {
    && c in d.queue && c in d.tokens && c in d'.queue && c in d'.tokens
    && d'.queue[c] == d.queue[c] && d'.tokens[c] == d.tokens[c]
  }

  predicate UsableAt(st: Store, c: Code) {
    c in st.bodies && st.bodies[c].Usable?
  }

  /** The code was discovered again: its member left the index under this token. */
  predicate Rediscovered(st: Store, t: Store, c: Code, token: ClaimToken) {
    c in st.index && c !in t.index && c in t.debts.tokens && t.debts.tokens[c] == token
  }

  /** So far within one script that stages under `token`. */
  predicate HeldOrRediscovered(st: Store, t: Store, c: Code, token: ClaimToken) {
    || (Held(st.debts, t.debts, c) && (c in t.index ==> c in st.index || UsableAt(t, c)))
    || (Rediscovered(st, t, c, token) && !UsableAt(t, c))
  }

  /** A remover that lost gives the claim its token and its place back. */
  lemma RemovalHolds(st: Store, t: Store, x: Code, c: Code, token: ClaimToken)
    requires HeldOrRediscovered(st, t, c, token) && (x == c ==> !UsableAt(t, c))
    ensures HeldOrRediscovered(st, RemoveIndexed(t, x, token), c, token)
  {
  }

  lemma {:induction false} PruneHolds(st: Store, codes: seq<Code>, c: Code, token: ClaimToken)
    requires Held(st.debts, st.debts, c)
    ensures HeldOrRediscovered(st, Prune(st, codes, token), c, token)
    ensures Prune(st, codes, token).bodies == st.bodies
  {
    if codes != [] {
      var front, x := codes[..|codes| - 1], codes[|codes| - 1];
      PruneHolds(st, front, c, token);
      if x !in st.bodies {
        RemovalHolds(st, Prune(st, front, token), x, c, token);
      }
      hide HeldOrRediscovered;
    }
  }

  lemma CandidateHolds(st: Store, w: Sweep, x: Code, now: int, c: Code, token: ClaimToken)
    requires HeldOrRediscovered(st, w.st, c, token)
    ensures HeldOrRediscovered(st, VisitCandidate(w, x, now, token).st, c, token)
  {
    if !UsableAt(w.st, x) {
      RemovalHolds(st, w.st, x, c, token);
      hide HeldOrRediscovered, Report, RemoveIndexed;
    }
    hide Report, RemoveIndexed;
  }

  lemma {:induction false} CandidatesHold(st: Store, w: Sweep, order: seq<Code>, now: int, c: Code, token: ClaimToken)
    requires HeldOrRediscovered(st, w.st, c, token)
    ensures HeldOrRediscovered(st, VisitAllCandidates(w, order, now, token).st, c, token)
  {
    if order != [] {
      var front := order[..|order| - 1];
      CandidatesHold(st, w, front, now, c, token);
      CandidateHolds(st, VisitAllCandidates(w, front, now, token), order[|order| - 1], now, c, token);
      hide HeldOrRediscovered, VisitCandidate;
    }
  }

  /** Visiting other claims leaves this one alone. */
  lemma {:induction false} OtherVisitsHold(w: Sweep, batch: seq<Code>, c: Code)
    requires c !in batch && Held(w.st.debts, w.st.debts, c)
    ensures var v := VisitAllStaged(w, batch); Held(w.st.debts, v.st.debts, c) && v.st.index == w.st.index && v.st.bodies == w.st.bodies
  {
    if batch != [] {
      OtherVisitsHold(w, batch[..|batch| - 1], c);
      hide Report;
    }
  }

  lemma SweepHolds(st: Store, now: int, limit: nat, order: seq<Code>, c: Code, token: ClaimToken)
    requires Held(st.debts, st.debts, c) && c !in Batch(st.debts, limit)
    ensures HeldOrRediscovered(st, SweepStore(st, now, limit, token, order).st, c, token)
  {
    var v := VisitAllStaged(Sweep(st, [], []), Batch(st.debts, limit));
    OtherVisitsHold(Sweep(st, [], []), Batch(st.debts, limit), c);
    CandidatesHold(st, v, order, now, c, token);
    hide HeldOrRediscovered, VisitAllStaged, VisitAllCandidates, Batch;
  }

  predicate SettledBy(d: Debts, e: Script, c: Code) {
    e.AcknowledgeClaims? && c in d.tokens && Orphan(c, d.tokens[c]) in e.claims
  }

  predicate DiscoveredBy(st: Store, t: Store, e: Script, c: Code) {
    TokenOf(e).Some? && Rediscovered(st, t, c, TokenOf(e).value)
  }

  /** A step that does not visit the claim keeps its place and token, unless it acknowledges that very token or
      discovers the code anew. */
  lemma PlacesAreKept(st: Store, e: Script, c: Code)
    requires DebtsInv(st.debts) && c in st.debts.queue
    requires e.SweepRooms? ==> c !in Batch(st.debts, e.limit)
    ensures var t := Apply(st, e);
            Held(st.debts, t.debts, c) || SettledBy(st.debts, e, c) || DiscoveredBy(st, t, e, c)
  {
    assert Held(st.debts, st.debts, c);
    match e {
      case PruneMembers(codes, token) =>
        PruneHolds(st, codes, c, token);
        hide Prune;
      case QuarantineBody(x, seen, token) =>
        if !(x == c && UsableAt(st, c)) {
          RemovalHolds(st, st, x, c, token);
          hide RemoveIndexed;
        }
      case SweepRooms(now, limit, token, order) =>
        SweepHolds(st, now, limit, order, c, token);
        hide SweepStore, CanSweep;
      case AcknowledgeClaims(claims) =>
        AcknowledgeDrops(st.debts, claims);
        hide Acknowledge;
      case _ =>
        BodyScriptsLeaveDebts(st, e);
        hide Apply;
    }
  }

  /** At step `k` the claim, still at its first place and under its first token, is taken into the batch of a sweep,
      acknowledged, or discovered anew. */
  ghost predicate ServedAt(st: Store, es: seq<Script>, k: nat, c: Code) {
    k < |es| &&
    var s := Run(st, es[..k]);
    && Held(st.debts, s.debts, c)
    && (|| (es[k].SweepRooms? && c in Batch(s.debts, es[k].limit))
        || SettledBy(s.debts, es[k], c)
        || DiscoveredBy(s, Apply(s, es[k]), es[k], c))
  }

  /** Every sweep of the run takes a batch of this limit and visits what is due. */
  ghost predicate RealSweeps(st: Store, es: seq<Script>, limit: nat) {
    forall k | 0 <= k < |es| :: es[k].SweepRooms? ==>
      es[k].limit == limit && CanSweep(Run(st, es[..k]), es[k].now, es[k].limit, es[k].order)
  }

  lemma ServedLater(st: Store, es: seq<Script>, k: nat, c: Code)
    requires es != [] && Held(st.debts, Apply(st, es[0]).debts, c) && ServedAt(Apply(st, es[0]), es[1..], k, c)
    ensures ServedAt(st, es, k + 1, c)
  {
    hide Apply, Batch, SettledBy, DiscoveredBy;
    RunTail(st, es, k);
  }

  lemma RealSweepsLater(st: Store, es: seq<Script>, limit: nat)
    requires es != [] && RealSweeps(st, es, limit)
    ensures RealSweeps(Apply(st, es[0]), es[1..], limit)
    ensures es[0].SweepRooms? ==> es[0].limit == limit && CanSweep(st, es[0].now, es[0].limit, es[0].order)
  {
    hide Apply, CanSweep;
    assert es[..0] == [];
    forall k | 0 <= k < |es[1..]|
      ensures Run(Apply(st, es[0]), es[1..][..k]) == Run(st, es[..k + 1])
    {
      RunTail(st, es, k);
    }
  }

  lemma {:induction false} UnservedIsPassedOver(st: Store, es: seq<Script>, limit: nat, c: Code)
    requires DebtsInv(st.debts) && c in st.debts.queue && RealSweeps(st, es, limit)
    requires forall k | 0 <= k < |es| :: !ServedAt(st, es, k, c)
    ensures PassesOver(st, es, limit, c)
    decreases |es|
  {
    if es != [] {
      var t := Apply(st, es[0]);
      assert es[..0] == [];
      assert Held(st.debts, st.debts, c);
      assert !ServedAt(st, es, 0, c);
      PlacesAreKept(st, es[0], c);
      ClaimsStep(st, es[0]);
      RealSweepsLater(st, es, limit);
      hide Apply, Batch, CanSweep, DebtsInv, Moves, SettledBy, DiscoveredBy, RealSweeps;
      assert Held(st.debts, t.debts, c);
      hide ServedAt;
      forall k | 0 <= k < |es[1..]|
        ensures !ServedAt(t, es[1..], k, c)
      {
        if ServedAt(t, es[1..], k, c) {
          ServedLater(st, es, k, c);
          assert false;
        }
      }
      UnservedIsPassedOver(t, es[1..], limit, c);
    }
  }

  /** With a batch of at least two, every run with more sweeps than claims ahead serves the claim: until then it keeps
      its place and token, and then some sweep takes it into its batch, some step acknowledges that token, or some
      step takes the code's member out of the index under a token of its own. */
  lemma EveryClaimIsServed(st: Store, es: seq<Script>, limit: nat, c: Code)
    requires DebtsInv(st.debts) && c in st.debts.queue && limit >= 2
    requires RealSweeps(st, es, limit) && SweepCount(es) > |AheadOf(st.debts, c)|
    ensures exists k | 0 <= k < |es| :: ServedAt(st, es, k, c)
  {
    hide DebtsInv, AheadOf, PassesOver, RealSweeps, ServedAt;
    if forall k | 0 <= k < |es| :: !ServedAt(st, es, k, c) {
      UnservedIsPassedOver(st, es, limit, c);
      NoStarvation(st, es, limit, c);
      assert false;
    }
  }

  /** One claim, staged last: it ties with `!sequence`, which sorts first. */
  const Tied := Store(map[], map[], Debts(map["A" := 1], map["A" := 1], 1))

  function Sweeps(n: nat): seq<Script> {
    if n == 0 then [] else [SweepRooms(0, 1, 0, [])] + Sweeps(n - 1)
  }

  lemma TiedIsStuck()
    ensures Batch(Tied.debts, 1) == []
    ensures CanSweep(Tied, 0, 1, []) && Apply(Tied, SweepRooms(0, 1, 0, [])) == Tied
  {
    assert BeforeSequence(Tied.debts) == 0;
    hide Ranked;
  }

  /** Two is needed: with a batch of one this claim is passed over by every sweep, for ever. */
  lemma {:induction false} BatchOfOneStarves(n: nat)
    ensures DebtsInv(Tied.debts) && |AheadOf(Tied.debts, "A")| == 0
    ensures SweepCount(Sweeps(n)) == n && PassesOver(Tied, Sweeps(n), 1, "A")
  {
    TiedIsStuck();
    hide Apply, Batch, CanSweep;
    if n > 0 {
      BatchOfOneStarves(n - 1);
      assert Sweeps(n)[0] == SweepRooms(0, 1, 0, []) && Sweeps(n)[1..] == Sweeps(n - 1);
    }
  }
}
