/** A waiting concurrency budget: a finished job hands its slot straight to the longest waiter. */
module ConcurrencyLimiter {

  /** Callers are numbered in the order they arrive. */
  type Caller = nat

  datatype Limiter = Limiter(
    maxConcurrent: nat,
    active: int,
    waiters: seq<Caller>,
    // What happened: callers seen, callers given a slot in that order, slots held now, jobs finished.
    arrivals: nat,
    served: seq<Caller>,
    holding: set<Caller>,
    finished: nat
  )

  datatype Event = Acquire | Release(caller: Caller)

  function AcquireStep(l: Limiter): Limiter {
    var c := l.arrivals;
    var l1 := l.(arrivals := c + 1);
    if l.active < l.maxConcurrent
    then l1.(active := l.active + 1, served := l.served + [c], holding := l.holding + {c})
    else l1.(waiters := l.waiters + [c])
  }

  function ReleaseStep(l: Limiter, c: Caller): Limiter {
    if c !in l.holding then l
    else
      var l1 := l.(holding := l.holding - {c}, finished := l.finished + 1);
      if l.waiters != [] then
        var next := l.waiters[0];
        l1.(waiters := l.waiters[1..], served := l.served + [next], holding := l1.holding + {next})
      else l1.(active := l.active - 1)
  }

  function Apply(l: Limiter, e: Event): Limiter {
    match e
    case Acquire => AcquireStep(l)
    case Release(c) => ReleaseStep(l, c)
  }

  function Run(l: Limiter, es: seq<Event>): Limiter
    decreases |es|
  {
    if es == [] then l else Run(Apply(l, es[0]), es[1..])
  }

  predicate Initial(l: Limiter) {
    l.maxConcurrent >= 1 && l.active == 0 && l.waiters == [] && l.arrivals == 0 && l.served == [] && l.holding == {} && l.finished == 0
  }

  /** The two mutable fields of the limiter. */
  class ConcurrencyLimiter {
    const maxConcurrent: nat
    var active: int
    var waiters: seq<Caller>
    ghost var arrivals: nat
    ghost var served: seq<Caller>
    ghost var holding: set<Caller>
    ghost var finished: nat

    ghost function View(): Limiter
      reads this
    {
      Limiter(maxConcurrent, active, waiters, arrivals, served, holding, finished)
    }

    constructor (limit: nat)
      requires limit >= 1
      ensures Initial(View()) && maxConcurrent == limit
    {
      maxConcurrent, active, waiters := limit, 0, [];
      arrivals, served, holding, finished := 0, [], {}, 0;
    }

    /** `me` is the caller's place in the order of arrival; it has its slot at once, or waits. */
    method Acquire(me: Caller) returns (atOnce: bool)
      requires me == arrivals
      modifies this
      ensures View() == AcquireStep(old(View())) && atOnce == (old(active) < maxConcurrent)
    {
      arrivals := arrivals + 1;
      atOnce := active < maxConcurrent;
      if atOnce {
        active := active + 1;
        served, holding := served + [me], holding + {me};
      } else {
        waiters := waiters + [me];
      }
    }

    method Release(me: Caller)
      requires me in holding
      modifies this
      ensures View() == ReleaseStep(old(View()), me)
    {
      holding, finished := holding - {me}, finished + 1;
      if waiters != [] {
        var next := waiters[0];
        waiters := waiters[1..];
        served, holding := served + [next], holding + {next};
        return;
      }
      active := active - 1;
    }
  }

  datatype Created = Ok(limiter: ConcurrencyLimiter) | NotPositive

  method CreateConcurrencyLimiter(maxConcurrent: int) returns (r: Created)
    ensures r.NotPositive? <==> maxConcurrent < 1
    ensures r.Ok? ==> fresh(r.limiter) && Initial(r.limiter.View()) && r.limiter.maxConcurrent == maxConcurrent
  {
    if maxConcurrent < 1 {
      return NotPositive;
    }
    var limiter := new ConcurrencyLimiter(maxConcurrent);
    return Ok(limiter);
  }

  /** Everyone who came, in order. */
  function Arrived(n: nat): (all: seq<Caller>)
    ensures |all| == n && forall i | 0 <= i < n :: all[i] == i
  {
    seq(n, i => i)
  }

  predicate Inv(l: Limiter) {
    && l.served + l.waiters == Arrived(l.arrivals)
    && l.active == |l.holding| <= l.maxConcurrent
    && (l.waiters != [] ==> l.active == l.maxConcurrent)
    && |l.served| == l.finished + l.active
    && (forall c <- l.holding :: c < |l.served|)
  }

  lemma AcquireKeeps(l: Limiter)
    requires Inv(l)
    ensures Inv(AcquireStep(l))
  {
    var c := l.arrivals;
    assert Arrived(c + 1) == Arrived(c) + [c];
    assert (l.served + l.waiters) + [c] == l.served + (l.waiters + [c]);
    assert c !in l.holding;
  }

  lemma ReleaseKeeps(l: Limiter, c: Caller)
    requires Inv(l)
    ensures Inv(ReleaseStep(l, c))
  {
    if c in l.holding && l.waiters != [] {
      var next := l.waiters[0];
      assert l.served + l.waiters == l.served + [next] + l.waiters[1..];
      assert next == (l.served + l.waiters)[|l.served|];
      assert next !in l.holding;
    }
  }

  lemma {:induction false} InvRun(l: Limiter, es: seq<Event>)
    requires Inv(l)
    ensures Inv(Run(l, es))
    decreases |es|
  {
    if es != [] {
      match es[0] {
        case Acquire => AcquireKeeps(l);
        case Release(c) => ReleaseKeeps(l, c);
      }
      hide Inv;
      InvRun(Apply(l, es[0]), es[1..]);
    }
  }

  /** A finished job gives its slot up: to the longest waiter, who then holds it, or back to the limiter. A caller that
      arrives holds a slot at once or stands last in line. */
  lemma SlotsChangeHands(l0: Limiter, es: seq<Event>, c: Caller)
    requires Initial(l0)
    ensures var l := Run(l0, es); var l' := Apply(l, Release(c));
            c in l.holding ==>
              && l'.finished == l.finished + 1 && c !in l'.holding
              && (if l.waiters != [] then l'.holding == l.holding - {c} + {l.waiters[0]} && l'.waiters == l.waiters[1..]
                  else l'.holding == l.holding - {c} && l'.waiters == [] && l'.active == l.active - 1)
    ensures var l := Run(l0, es); var l' := Apply(l, Acquire); var next := |l.served| + |l.waiters|;
            if |l.holding| < l0.maxConcurrent then l'.holding == l.holding + {next} && l'.waiters == l.waiters
            else l'.holding == l.holding && l'.waiters == l.waiters + [next]
  {
    assert Arrived(0) == [];
    InvRun(l0, es);
    LimitIsFixed(l0, es);
    var l := Run(l0, es);
    hide Run;
    if l.waiters != [] {
      assert (l.served + l.waiters)[|l.served|] == l.waiters[0] == |l.served|;
    }
  }

  /** The counter is the number of slots held or in transit and never exceeds the limit; somebody waits only where
      every slot is taken. */
  lemma SlotsAreConserved(l0: Limiter, es: seq<Event>)
    requires Initial(l0)
    ensures var l := Run(l0, es);
            l.active == |l.holding| <= l.maxConcurrent && (l.waiters != [] ==> l.active == l.maxConcurrent)
  {
    assert Arrived(0) == [];
    InvRun(l0, es);
  }

  lemma {:induction false} LimitIsFixed(l: Limiter, es: seq<Event>)
    ensures Run(l, es).maxConcurrent == l.maxConcurrent
    decreases |es|
  {
    if es != [] {
      LimitIsFixed(Apply(l, es[0]), es[1..]);
    }
  }

  /** Service is in order of arrival and wastes no slot: the n-th caller has been served exactly when fewer than
      `maxConcurrent` plus the finished jobs came before it. */
  lemma ServedInOrderOfArrival(l0: Limiter, es: seq<Event>, c: Caller)
    requires Initial(l0)
    ensures var l := Run(l0, es);
            && (forall i | 0 <= i < |l.served| :: l.served[i] == i)
            && (c in l.served <==> c < l.arrivals && c < l0.maxConcurrent + l.finished)
            && (c in l.waiters <==> c < l.arrivals && c >= l0.maxConcurrent + l.finished)
  {
    assert Arrived(0) == [];
    InvRun(l0, es);
    LimitIsFixed(l0, es);
    var l := Run(l0, es);
    hide Run;
    var all := l.served + l.waiters;
    forall i | 0 <= i < |l.served|
      ensures l.served[i] == i
    {
      assert all[i] == l.served[i];
    }
    forall i | 0 <= i < |l.waiters|
      ensures l.waiters[i] == |l.served| + i
    {
      assert all[|l.served| + i] == l.waiters[i];
    }
    if c < |l.served| {
      assert l.served[c] == c;
    } else if c < l.arrivals {
      assert l.waiters[c - |l.served|] == c;
    }
  }
}
