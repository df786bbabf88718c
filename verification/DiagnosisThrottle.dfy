/** At most one report of a diagnosis per interval, from a memory that is itself bounded. */
module DiagnosisThrottle {
  import opened Options

  type Diagnosis = string

  datatype Throttle = Throttle(
    interval: int,
    maxTracked: nat,
    lastReportedAt: map<Diagnosis, int>,
    lastUntrackedAt: Option<int>
  )

  function Stale(reported: map<Diagnosis, int>, interval: int, at: int): set<Diagnosis> {
    set d | d in reported && at - reported[d] >= interval
  }

  function Pruned(t: Throttle, at: int): Throttle {
    t.(lastReportedAt := t.lastReportedAt - Stale(t.lastReportedAt, t.interval, at))
  }

  /** What one call answers, after pruning. */
  predicate Allowed(t: Throttle, d: Diagnosis, at: int) {
    d !in t.lastReportedAt && !(t.lastUntrackedAt.Some? && at - t.lastUntrackedAt.value < t.interval)
  }

  predicate Full(t: Throttle) {
    |t.lastReportedAt| >= t.maxTracked
  }

  function Reserve(t: Throttle, d: Diagnosis, at: int): Throttle {
    if Full(t) then t.(lastUntrackedAt := Some(at)) else t.(lastReportedAt := t.lastReportedAt[d := at])
  }

  function Next(t: Throttle, d: Diagnosis, at: int): Throttle {
    var p := Pruned(t, at);
    if Allowed(p, d, at) then Reserve(p, d, at) else p
  }

  class DiagnosisThrottle {
    const interval: int
    const maxTracked: nat
    var lastReportedAt: map<Diagnosis, int>
    var lastUntrackedAt: Option<int>

    function View(): Throttle
      reads this
    {
      Throttle(interval, maxTracked, lastReportedAt, lastUntrackedAt)
    }

    constructor (intervalMs: int, maxTrackedDiagnoses: nat)
      ensures View() == Throttle(intervalMs, maxTrackedDiagnoses, map[], None)
    {
      interval, maxTracked := intervalMs, maxTrackedDiagnoses;
      lastReportedAt, lastUntrackedAt := map[], None;
    }

    method DropStale(at: int)
      modifies `lastReportedAt
      ensures View() == Pruned(old(View()), at)
    {
      ghost var before := lastReportedAt;
      var entries := lastReportedAt.Keys;
      while entries != {}
        invariant entries <= before.Keys
        invariant lastReportedAt == before - (Stale(before, interval, at) - entries)
        decreases |entries|
      {
        var d :| d in entries;
        if at - lastReportedAt[d] >= interval {
          lastReportedAt := lastReportedAt - {d};
        }
        entries := entries - {d};
      }
      assert Stale(before, interval, at) - {} == Stale(before, interval, at);
    }

    method Allow(d: Diagnosis, at: int) returns (allowed: bool)
      modifies this
      ensures View() == Next(old(View()), d, at)
      ensures allowed == Allowed(Pruned(old(View()), at), d, at)
    {
      DropStale(at);
      if d in lastReportedAt {
        return false;
      }
      if lastUntrackedAt.Some? && at - lastUntrackedAt.value < interval {
        return false;
      }
      if |lastReportedAt| >= maxTracked {
        lastUntrackedAt := Some(at);
      } else {
        lastReportedAt := lastReportedAt[d := at];
      }
      return true;
    }
  }

  // ---- Call sequences ----

  datatype Call = Call(diagnosis: Diagnosis, at: int)

  /** One report that was allowed: in the map, or in the overflow bucket. */
  datatype Report = Report(diagnosis: Diagnosis, at: int, tracked: bool)

  function Verdict(t: Throttle, c: Call): seq<Report> {
    var p := Pruned(t, c.at);
    if Allowed(p, c.diagnosis, c.at) then [Report(c.diagnosis, c.at, !Full(p))] else []
  }

  function Run(t: Throttle, cs: seq<Call>): Throttle
    decreases |cs|
  {
    if cs == [] then t else Next(Run(t, cs[..|cs| - 1]), cs[|cs| - 1].diagnosis, cs[|cs| - 1].at)
  }

  /** Every report a sequence of calls was allowed, in order. */
  function Reports(t: Throttle, cs: seq<Call>): seq<Report>
    decreases |cs|
  {
    if cs == [] then [] else Reports(t, cs[..|cs| - 1]) + Verdict(Run(t, cs[..|cs| - 1]), cs[|cs| - 1])
  }

  predicate Chronological(cs: seq<Call>) {
    forall i, j | 0 <= i < j < |cs| :: cs[i].at <= cs[j].at
  }

  predicate Initial(t: Throttle) {
    t.lastReportedAt == map[] && t.lastUntrackedAt == None
  }

  /** Two reports at least an interval apart, wherever they share a diagnosis or the first overflowed. */
  predicate Spaced(interval: int, a: Report, b: Report) {
    a.diagnosis == b.diagnosis || !a.tracked ==> b.at - a.at >= interval
  }

  predicate TrackInv(t: Throttle, rs: seq<Report>, now: int) {
    && |t.lastReportedAt| <= t.maxTracked
    && (forall i | 0 <= i < |rs| :: rs[i].at <= now)
    && (forall i | 0 <= i < |rs| :: rs[i].tracked && now - rs[i].at < t.interval ==>
          rs[i].diagnosis in t.lastReportedAt && t.lastReportedAt[rs[i].diagnosis] == rs[i].at)
    && (forall i | 0 <= i < |rs| :: !rs[i].tracked ==> t.lastUntrackedAt.Some? && rs[i].at <= t.lastUntrackedAt.value)
    && (forall i, j | 0 <= i < j < |rs| :: Spaced(t.interval, rs[i], rs[j]))
  }

  function Window(rs: seq<Report>, from: int, interval: int): set<nat> {
    set i: nat | i < |rs| && from <= rs[i].at < from + interval
  }

  ghost predicate WindowsInv(t: Throttle, rs: seq<Report>) {
    forall from :: |Window(rs, from, t.interval)| <= t.maxTracked + 1
  }

  lemma PruneKeeps(t: Throttle, rs: seq<Report>, now: int, at: int)
    requires TrackInv(t, rs, now) && now <= at
    ensures TrackInv(Pruned(t, at), rs, at)
    ensures Pruned(t, at).interval == t.interval && Pruned(t, at).maxTracked == t.maxTracked
  {
    Subset(Pruned(t, at).lastReportedAt.Keys, t.lastReportedAt.Keys);
  }

  lemma TrackStep(t: Throttle, rs: seq<Report>, now: int, c: Call)
    requires TrackInv(t, rs, now) && now <= c.at
    ensures TrackInv(Next(t, c.diagnosis, c.at), rs + Verdict(t, c), c.at)
  {
    PruneKeeps(t, rs, now, c.at);
    hide Pruned;
  }

  lemma Subset<T>(a: set<T>, b: set<T>)
    requires a <= b
    ensures |a| <= |b|
  {
    assert a + (b - a) == b;
  }

  /** Sets of different reports hold as many diagnoses. */
  lemma {:induction false} AsManyDiagnoses(rs: seq<Report>, s: set<nat>, all: set<Diagnosis>)
    requires forall i <- s :: i < |rs| && rs[i].diagnosis in all
    requires forall i <- s, j <- s :: rs[i].diagnosis == rs[j].diagnosis ==> i == j
    ensures |s| <= |all|
    decreases |s|
  {
    if s != {} {
      var i :| i in s;
      AsManyDiagnoses(rs, s - {i}, all - {rs[i].diagnosis});
    }
  }

  /** What a window that reaches up to a newly allowed report holds besides it. */
  lemma RecentReportsAreTracked(p: Throttle, rs: seq<Report>, d: Diagnosis, at: int, from: int)
    requires TrackInv(p, rs, at) && Allowed(p, d, at) && from <= at < from + p.interval
    ensures |Window(rs, from, p.interval)| <= |p.lastReportedAt|
  {
    var w := Window(rs, from, p.interval);
    forall i <- w
      ensures rs[i].tracked && rs[i].diagnosis in p.lastReportedAt.Keys
    {
    }
    forall i <- w, j <- w | i < j
      ensures rs[i].diagnosis != rs[j].diagnosis
    {
      assert Spaced(p.interval, rs[i], rs[j]);
    }
    AsManyDiagnoses(rs, w, p.lastReportedAt.Keys);
  }

  lemma OneMoreInWindow(rs: seq<Report>, r: Report, from: int, interval: int)
    ensures Window(rs + [r], from, interval) ==
            Window(rs, from, interval) + if from <= r.at < from + interval then {|rs|} else {}
  {
  }

  lemma WindowStep(t: Throttle, rs: seq<Report>, now: int, c: Call, from: int)
    requires TrackInv(t, rs, now) && |Window(rs, from, t.interval)| <= t.maxTracked + 1 && now <= c.at
    ensures |Window(rs + Verdict(t, c), from, t.interval)| <= t.maxTracked + 1
  {
    PruneKeeps(t, rs, now, c.at);
    hide TrackInv, Window, Pruned;
    var p := Pruned(t, c.at);
    if Allowed(p, c.diagnosis, c.at) {
      OneMoreInWindow(rs, Report(c.diagnosis, c.at, !Full(p)), from, t.interval);
      if from <= c.at < from + t.interval {
        TrackedAtMost(p, rs, c.at);
        RecentReportsAreTracked(p, rs, c.diagnosis, c.at, from);
      }
    } else {
      assert rs + [] == rs;
    }
  }

  lemma TrackedAtMost(t: Throttle, rs: seq<Report>, now: int)
    requires TrackInv(t, rs, now)
    ensures |t.lastReportedAt| <= t.maxTracked
  {
  }

  lemma WindowsStep(t: Throttle, rs: seq<Report>, now: int, c: Call)
    requires TrackInv(t, rs, now) && WindowsInv(t, rs) && now <= c.at
    ensures WindowsInv(Next(t, c.diagnosis, c.at), rs + Verdict(t, c))
  {
    hide TrackInv, Window, Pruned, Verdict, Stale;
    forall from
      ensures |Window(rs + Verdict(t, c), from, t.interval)| <= t.maxTracked + 1
    {
      WindowStep(t, rs, now, c, from);
    }
    PruneKeeps(t, rs, now, c.at);
  }

  lemma {:induction false} RunInv(t: Throttle, cs: seq<Call>)
    requires Initial(t) && Chronological(cs)
    ensures TrackInv(Run(t, cs), Reports(t, cs), if cs == [] then 0 else cs[|cs| - 1].at)
    ensures WindowsInv(Run(t, cs), Reports(t, cs))
    ensures Run(t, cs).interval == t.interval && Run(t, cs).maxTracked == t.maxTracked
    decreases |cs|
  {
    if cs != [] {
      var init := cs[..|cs| - 1];
      var c := cs[|cs| - 1];
      RunInv(t, init);
      var now := if init == [] then c.at else init[|init| - 1].at;
      assert TrackInv(Run(t, init), Reports(t, init), now);
      TrackStep(Run(t, init), Reports(t, init), now, c);
      WindowsStep(Run(t, init), Reports(t, init), now, c);
      hide TrackInv, WindowsInv;
    } else {
      forall from
        ensures |Window([], from, t.interval)| <= t.maxTracked + 1
      {
        assert Window([], from, t.interval) == {};
      }
    }
  }

  /** With a clock that does not go backwards, no diagnosis is reported twice within an interval, whether it was
      tracked or fell into the overflow bucket, and after an overflow nothing at all is. */
  lemma NoRepeatWithinAnInterval(t: Throttle, cs: seq<Call>, i: nat, j: nat)
    requires Initial(t) && Chronological(cs) && i < j < |Reports(t, cs)|
    ensures var rs := Reports(t, cs);
            rs[i].diagnosis == rs[j].diagnosis || !rs[i].tracked ==> rs[j].at - rs[i].at >= t.interval
  {
    RunInv(t, cs);
    assert Spaced(t.interval, Reports(t, cs)[i], Reports(t, cs)[j]);
  }

  /** The map never outgrows its cap, and any window of one interval holds at most one report more than the cap. */
  lemma ReportsAreBounded(t: Throttle, cs: seq<Call>, from: int)
    requires Initial(t) && Chronological(cs)
    ensures |Run(t, cs).lastReportedAt| <= t.maxTracked
    ensures |Window(Reports(t, cs), from, t.interval)| <= t.maxTracked + 1
  {
    RunInv(t, cs);
  }

  /** Everything remembered was reported. */
  ghost predicate Sourced(t: Throttle, rs: seq<Report>) {
    && (forall d <- t.lastReportedAt :: Report(d, t.lastReportedAt[d], true) in rs)
    && (t.lastUntrackedAt.Some? ==> exists r <- rs :: !r.tracked && r.at == t.lastUntrackedAt.value)
  }

  lemma SourcedStep(t: Throttle, rs: seq<Report>, c: Call)
    requires Sourced(t, rs)
    ensures Sourced(Next(t, c.diagnosis, c.at), rs + Verdict(t, c))
  {
    var p := Pruned(t, c.at);
    var rs' := rs + Verdict(t, c);
    assert forall r <- rs :: r in rs';
    assert forall r <- Verdict(t, c) :: r in rs';
    if Allowed(p, c.diagnosis, c.at) {
      assert Report(c.diagnosis, c.at, !Full(p)) in rs';
    }
  }

  lemma {:induction false} SourcedRun(t: Throttle, cs: seq<Call>)
    requires Initial(t)
    ensures Sourced(Run(t, cs), Reports(t, cs))
    decreases |cs|
  {
    if cs != [] {
      var init := cs[..|cs| - 1];
      SourcedRun(t, init);
      SourcedStep(Run(t, init), Reports(t, init), cs[|cs| - 1]);
      hide Sourced;
    }
  }

  /** A report less than an interval old that stands in the way. */
  predicate InTheWay(r: Report, d: Diagnosis, at: int, interval: int) {
    at - r.at < interval && (r.diagnosis == d || !r.tracked)
  }

  /** A call is refused exactly when its diagnosis, or anything that overflowed, was reported less than an interval
      ago: nothing is suppressed for any other reason. */
  lemma RefusedIffRecentlyReported(t: Throttle, cs: seq<Call>, c: Call)
    requires Initial(t) && Chronological(cs + [c])
    ensures Verdict(Run(t, cs), c) == [] <==> exists r <- Reports(t, cs) :: InTheWay(r, c.diagnosis, c.at, t.interval)
  {
    assert forall i | 0 <= i < |cs| :: (cs + [c])[i] == cs[i];
    assert (cs + [c])[|cs|] == c;
    RunInv(t, cs);
    SourcedRun(t, cs);
    var s := Run(t, cs);
    var rs := Reports(t, cs);
    var now := if cs == [] then c.at else cs[|cs| - 1].at;
    assert TrackInv(s, rs, now);
    PruneKeeps(s, rs, now, c.at);
    hide Run, Reports;
    RefusedIff(s, rs, c);
  }

  /** The tracked reports less than an interval old. */
  function Remembered(rs: seq<Report>, interval: int, at: int): set<nat> {
    set i: nat | i < |rs| && rs[i].tracked && at - rs[i].at < interval
  }

  /** What the map holds after pruning are those reports, one diagnosis each. */
  lemma MapHoldsTheRemembered(t: Throttle, rs: seq<Report>, at: int)
    requires TrackInv(Pruned(t, at), rs, at) && Sourced(Pruned(t, at), rs)
    ensures |Remembered(rs, t.interval, at)| == |Pruned(t, at).lastReportedAt|
  {
    RememberedAreInTheMap(t, rs, at);
    MapEntriesAreRemembered(t, rs, at);
  }

  lemma RememberedAreInTheMap(t: Throttle, rs: seq<Report>, at: int)
    requires TrackInv(Pruned(t, at), rs, at)
    ensures |Remembered(rs, t.interval, at)| <= |Pruned(t, at).lastReportedAt|
  {
    var p := Pruned(t, at);
    var s := Remembered(rs, t.interval, at);
    forall i <- s, j <- s | i < j
      ensures rs[i].diagnosis != rs[j].diagnosis
    {
      assert Spaced(p.interval, rs[i], rs[j]);
    }
    AsManyDiagnoses(rs, s, p.lastReportedAt.Keys);
  }

  lemma MapEntriesAreRemembered(t: Throttle, rs: seq<Report>, at: int)
    requires Sourced(Pruned(t, at), rs)
    ensures |Pruned(t, at).lastReportedAt| <= |Remembered(rs, t.interval, at)|
  {
    var p := Pruned(t, at);
    var s := Remembered(rs, t.interval, at);
    forall d <- p.lastReportedAt
      ensures exists i <- s :: rs[i].diagnosis == d
    {
      var i :| 0 <= i < |rs| && rs[i] == Report(d, p.lastReportedAt[d], true);
      assert i in s;
    }
    hide Sourced, Remembered;
    AsManyReports(rs, s, p.lastReportedAt.Keys);
  }

  lemma {:induction false} AsManyReports(rs: seq<Report>, s: set<nat>, all: set<Diagnosis>)
    requires forall i <- s :: i < |rs|
    requires forall d <- all :: exists i <- s :: rs[i].diagnosis == d
    ensures |all| <= |s|
    decreases |all|
  {
    if all != {} {
      var d :| d in all;
      var i :| i in s && rs[i].diagnosis == d;
      forall x <- all - {d}
        ensures exists j <- s - {i} :: rs[j].diagnosis == x
      {
        var j :| j in s && rs[j].diagnosis == x;
        assert j in s - {i};
      }
      AsManyReports(rs, s - {i}, all - {d});
    }
  }

  lemma PrunedIsSourced(t: Throttle, rs: seq<Report>, at: int)
    requires Sourced(t, rs)
    ensures Sourced(Pruned(t, at), rs)
  {
  }

  lemma VerdictIsTrackedIfRoom(t: Throttle, c: Call)
    ensures Verdict(t, c) == [] || Verdict(t, c) == [Report(c.diagnosis, c.at, |Pruned(t, c.at).lastReportedAt| < t.maxTracked)]
  {
  }

  /** A report goes to the overflow bucket exactly when the cap is already taken by tracked reports less than an
      interval old; otherwise it is tracked under its own diagnosis. */
  lemma OverflowsIffFull(t: Throttle, cs: seq<Call>, c: Call)
    requires Initial(t) && Chronological(cs + [c])
    ensures Verdict(Run(t, cs), c) != [] ==>
              Verdict(Run(t, cs), c) == [Report(c.diagnosis, c.at, |Remembered(Reports(t, cs), t.interval, c.at)| < t.maxTracked)]
  {
    assert forall i | 0 <= i < |cs| :: (cs + [c])[i] == cs[i];
    assert (cs + [c])[|cs|] == c;
    RunInv(t, cs);
    SourcedRun(t, cs);
    var s := Run(t, cs);
    var rs := Reports(t, cs);
    var now := if cs == [] then c.at else cs[|cs| - 1].at;
    assert TrackInv(s, rs, now);
    PruneKeeps(s, rs, now, c.at);
    hide Run, Reports, TrackInv, Verdict, Sourced, Remembered;
    PrunedIsSourced(s, rs, c.at);
    MapHoldsTheRemembered(s, rs, c.at);
    assert s.maxTracked == t.maxTracked && s.interval == t.interval;
    VerdictIsTrackedIfRoom(s, c);
  }

  lemma RefusedIff(s: Throttle, rs: seq<Report>, c: Call)
    requires TrackInv(Pruned(s, c.at), rs, c.at) && Sourced(s, rs)
    ensures Verdict(s, c) == [] <==> exists r <- rs :: InTheWay(r, c.diagnosis, c.at, s.interval)
  {
    var p := Pruned(s, c.at);
    if c.diagnosis in p.lastReportedAt {
      assert InTheWay(Report(c.diagnosis, p.lastReportedAt[c.diagnosis], true), c.diagnosis, c.at, s.interval);
    } else if p.lastUntrackedAt.Some? && c.at - p.lastUntrackedAt.value < s.interval {
      var r :| r in rs && !r.tracked && r.at == p.lastUntrackedAt.value;
      assert InTheWay(r, c.diagnosis, c.at, s.interval);
    } else {
      forall r <- rs
        ensures !InTheWay(r, c.diagnosis, c.at, s.interval)
      {
        var i :| 0 <= i < |rs| && rs[i] == r;
      }
    }
  }
}
