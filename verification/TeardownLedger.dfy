/**
 One process's ledger of unfinished runtime teardowns: at most one effect per room code and generation, and for
 every code that is still owed a teardown a debt that names the effect answering for it.

 Collectors reach the ledger between awaits: they pin the generation, look for a body, confirm the generation, and
 only then start or join an effect. An effect settles at any later step, whoever stopped waiting for it.
 */
module TeardownLedger {
  import opened Options

  type Code = string
  type Generation = nat
  type EffectId = nat
  type DebtId = nat
  type CollectorId = nat

  /** `id` is the identity of the debt record; an owner of None waits for a fresh attempt. */
  datatype Debt = Debt(id: DebtId, owner: Option<EffectId>)

  type EffectIndex = map<Code, map<Generation, EffectId>>

  datatype Ledger = Ledger(debts: map<Code, Debt>, effects: EffectIndex, nextDebt: DebtId, nextEffect: EffectId)

  function Indexed(effects: EffectIndex, code: Code, g: Generation): Option<EffectId> {
    if code in effects && g in effects[code] then Some(effects[code][g]) else None
  }

  function Index(effects: EffectIndex, code: Code, g: Generation, e: EffectId): EffectIndex {
    effects[code := (if code in effects then effects[code] else map[])[g := e]]
  }

  /** Only the very effect that is indexed removes itself, and an emptied code goes with it. */
  function Unindex(effects: EffectIndex, code: Code, g: Generation, e: EffectId): EffectIndex {
    if Indexed(effects, code, g) != Some(e) then effects
    else if effects[code] - {g} == map[] then effects - {code}
    else effects[code := effects[code] - {g}]
  }

  function RememberDebt(l: Ledger, code: Code): Ledger {
    if code in l.debts then l else l.(debts := l.debts[code := Debt(l.nextDebt, None)], nextDebt := l.nextDebt + 1)
  }

  /** A new effect gets a new debt to own; joining one that runs changes nothing. */
  function StartEffect(l: Ledger, code: Code, g: Generation): (Ledger, EffectId) {
    var existing := Indexed(l.effects, code, g);
    if existing.Some? then (l, existing.value)
    else
      var e := l.nextEffect;
      (Ledger(l.debts[code := Debt(l.nextDebt, Some(e))], Index(l.effects, code, g, e), l.nextDebt + 1, e + 1), e)
  }

  datatype Outcome = Applied | Skipped | Failed

  function SettleDebt(debts: map<Code, Debt>, code: Code, e: EffectId, outcome: Outcome): map<Code, Debt> {
    if !(code in debts && debts[code].owner == Some(e)) then debts
    else if outcome.Applied? then debts - {code}
    else debts[code := debts[code].(owner := None)]
  }

  function SettleEffect(l: Ledger, code: Code, g: Generation, e: EffectId, outcome: Outcome): Ledger {
    l.(effects := Unindex(l.effects, code, g, e), debts := SettleDebt(l.debts, code, e, outcome))
  }

  function ObserveLiveRoom(l: Ledger, code: Code): Ledger {
    l.(debts := l.debts - {code})
  }

  /** The backlog item still stands; a fresh deletion needs no such licence. */
  predicate Licensed(l: Ledger, code: Code, expected: Option<DebtId>) {
    expected.Some? ==> code in l.debts && l.debts[code].id == expected.value
  }

  /** The two maps of the room service, changed in place. */
  class TeardownLedger {
    var pendingRuntimeTeardowns: map<Code, Debt>
    var runtimeTeardownEffects: EffectIndex
    var nextDebt: DebtId
    var nextEffect: EffectId

    function View(): Ledger
      reads this
    {
      Ledger(pendingRuntimeTeardowns, runtimeTeardownEffects, nextDebt, nextEffect)
    }

    constructor ()
      ensures View() == Ledger(map[], map[], 0, 0)
    {
      pendingRuntimeTeardowns, runtimeTeardownEffects, nextDebt, nextEffect := map[], map[], 0, 0;
    }

    method RememberRuntimeTeardownDebt(code: Code)
      modifies this
      ensures View() == RememberDebt(old(View()), code)
    {
      if code !in pendingRuntimeTeardowns {
        pendingRuntimeTeardowns := pendingRuntimeTeardowns[code := Debt(nextDebt, None)];
        nextDebt := nextDebt + 1;
      }
    }

    method RemoveRuntimeTeardownEffect(code: Code, g: Generation, e: EffectId)
      modifies `runtimeTeardownEffects
      ensures runtimeTeardownEffects == Unindex(old(runtimeTeardownEffects), code, g, e)
    {
      if code !in runtimeTeardownEffects || g !in runtimeTeardownEffects[code] || runtimeTeardownEffects[code][g] != e {
        return;
      }
      var byGeneration := runtimeTeardownEffects[code] - {g};
      if byGeneration == map[] {
        runtimeTeardownEffects := runtimeTeardownEffects - {code};
      } else {
        runtimeTeardownEffects := runtimeTeardownEffects[code := byGeneration];
      }
    }

    method StartRuntimeTeardownEffect(code: Code, g: Generation) returns (e: EffectId, created: bool)
      modifies this
      ensures (View(), e) == StartEffect(old(View()), code, g)
      ensures created <==> Indexed(old(runtimeTeardownEffects), code, g).None?
    {
      var byGeneration: map<Generation, EffectId> := if code in runtimeTeardownEffects then runtimeTeardownEffects[code] else map[];
      if g in byGeneration {
        return byGeneration[g], false;
      }
      e, created := nextEffect, true;
      nextEffect := nextEffect + 1;
      runtimeTeardownEffects := runtimeTeardownEffects[code := byGeneration[g := e]];
      pendingRuntimeTeardowns := pendingRuntimeTeardowns[code := Debt(nextDebt, Some(e))];
      nextDebt := nextDebt + 1;
    }

    method EffectSettled(code: Code, g: Generation, e: EffectId, outcome: Outcome)
      modifies this
      ensures View() == SettleEffect(old(View()), code, g, e, outcome)
    {
      RemoveRuntimeTeardownEffect(code, g, e);
      if code in pendingRuntimeTeardowns && pendingRuntimeTeardowns[code].owner == Some(e) {
        if outcome.Applied? {
          pendingRuntimeTeardowns := pendingRuntimeTeardowns - {code};
        } else {
          pendingRuntimeTeardowns := pendingRuntimeTeardowns[code := pendingRuntimeTeardowns[code].(owner := None)];
        }
      }
    }

    method LiveRoomObserved(code: Code)
      modifies `pendingRuntimeTeardowns
      ensures View() == ObserveLiveRoom(old(View()), code)
    {
      pendingRuntimeTeardowns := pendingRuntimeTeardowns - {code};
    }
  }

  // ---- Collectors and effects, interleaved ----

  datatype Phase = Pinning | Reading(pin: Generation) | Confirming(pin: Generation) | Waiting(effect: EffectId) | Over

  /** One candidate of one collection: a backlog item carries the debt it was captured with. */
  datatype Collector = Collector(code: Code, expected: Option<DebtId>, phase: Phase)

  datatype Running = Running(code: Code, generation: Generation)

  datatype System = System(ledger: Ledger, running: map<EffectId, Running>, collectors: map<CollectorId, Collector>)

  datatype Reading = Known(generation: Generation) | Unreadable
  datatype BodySeen = NoBody | LiveBody | UnreadableBody

  datatype Event =
    | CaptureBacklog(c: CollectorId, code: Code)
    | CollectFresh(c: CollectorId, code: Code)
    | PinAnswers(c: CollectorId, reading: Reading)
    | BodyAnswers(c: CollectorId, seen: BodySeen)
    | ConfirmAnswers(c: CollectorId, reading: Reading)
    | EffectSettles(effect: EffectId, outcome: Outcome)

  function Moved(s: System, c: CollectorId, phase: Phase): System
    requires c in s.collectors
  {
    s.(collectors := s.collectors[c := s.collectors[c].(phase := phase)])
  }

  function GiveUp(s: System, c: CollectorId): System
    requires c in s.collectors
  {
    Moved(s, c, Over).(ledger := RememberDebt(s.ledger, s.collectors[c].code))
  }

  function StartStep(s: System, c: CollectorId, g: Generation): System
    requires c in s.collectors
  {
    var code := s.collectors[c].code;
    var (l, e) := StartEffect(s.ledger, code, g);
    Moved(s, c, Waiting(e)).(ledger := l, running := if l == s.ledger then s.running else s.running[e := Running(code, g)])
  }

  function ConfirmStep(s: System, c: CollectorId, reading: Reading): System {
    if !(c in s.collectors && s.collectors[c].phase.Confirming?) then s
    else
      var k := s.collectors[c];
      if reading.Unreadable? then GiveUp(s, c)
      else if reading.generation != k.phase.pin || !Licensed(s.ledger, k.code, k.expected) then Moved(s, c, Over)
      else StartStep(s, c, k.phase.pin)
  }

  function Apply(s: System, e: Event): System {
    match e
    case CaptureBacklog(c, code) =>
      if c in s.collectors || code !in s.ledger.debts then s
      else s.(collectors := s.collectors[c := Collector(code, Some(s.ledger.debts[code].id), Pinning)])
    case CollectFresh(c, code) =>
      if c in s.collectors then s else s.(collectors := s.collectors[c := Collector(code, None, Pinning)])
    case PinAnswers(c, reading) =>
      if !(c in s.collectors && s.collectors[c].phase.Pinning?) then s
      else if reading.Unreadable? then GiveUp(s, c)
      else Moved(s, c, Reading(reading.generation))
    case BodyAnswers(c, seen) =>
      if !(c in s.collectors && s.collectors[c].phase.Reading?) then s
      else (match seen
        case UnreadableBody => GiveUp(s, c)
        case LiveBody => Moved(s, c, Over).(ledger := ObserveLiveRoom(s.ledger, s.collectors[c].code))
        case NoBody => Moved(s, c, Confirming(s.collectors[c].phase.pin)))
    case ConfirmAnswers(c, reading) => ConfirmStep(s, c, reading)
    case EffectSettles(f, outcome) =>
      if f !in s.running then s
      else
        var r := s.running[f];
        s.(ledger := SettleEffect(s.ledger, r.code, r.generation, f, outcome), running := s.running - {f})
  }

  function Run(s: System, es: seq<Event>): System
    decreases |es|
  {
    if es == [] then s else Run(Apply(s, es[0]), es[1..])
  }

  predicate Initial(s: System) {
    s == System(Ledger(map[], map[], 0, 0), map[], map[])
  }

  // ---- What every step keeps ----

  /** The index holds exactly the running effects. */
  ghost predicate EffectsInv(effects: EffectIndex, running: map<EffectId, Running>, nextEffect: EffectId) {
    && (forall f <- running :: f < nextEffect && Indexed(effects, running[f].code, running[f].generation) == Some(f))
    && (forall code, g :: Indexed(effects, code, g).Some? ==>
          var f := Indexed(effects, code, g).value; f in running && running[f] == Running(code, g))
  }

  /** An owner is the newest effect of its code, and is running. */
  predicate DebtsInv(debts: map<Code, Debt>, running: map<EffectId, Running>, nextDebt: DebtId) {
    && (forall code <- debts :: debts[code].id < nextDebt)
    && (forall code <- debts :: debts[code].owner.Some? ==>
          var f := debts[code].owner.value;
          f in running && running[f].code == code && forall h <- running :: running[h].code == code ==> h <= f)
  }

  ghost predicate Inv(s: System) {
    && EffectsInv(s.ledger.effects, s.running, s.ledger.nextEffect)
    && DebtsInv(s.ledger.debts, s.running, s.ledger.nextDebt)
  }

  lemma IndexLookup(effects: EffectIndex, code: Code, g: Generation, e: EffectId)
    ensures forall c, h :: Indexed(Index(effects, code, g, e), c, h) ==
                           if c == code && h == g then Some(e) else Indexed(effects, c, h)
  {
  }

  lemma UnindexLookup(effects: EffectIndex, code: Code, g: Generation, e: EffectId)
    ensures forall c, h :: Indexed(Unindex(effects, code, g, e), c, h) ==
                           if c == code && h == g && Indexed(effects, c, h) == Some(e) then None else Indexed(effects, c, h)
  {
    if Indexed(effects, code, g) == Some(e) && effects[code] - {g} == map[] {
      assert (effects[code] - {g}).Keys == effects[code].Keys - {g};
      forall h | h != g
        ensures h !in effects[code]
      {
        assert h in effects[code].Keys - {g} <==> h in effects[code];
      }
    }
  }

  lemma StartKeeps(s: System, c: CollectorId, g: Generation)
    requires Inv(s) && c in s.collectors
    ensures Inv(StartStep(s, c, g))
  {
    var code := s.collectors[c].code;
    IndexLookup(s.ledger.effects, code, g, s.ledger.nextEffect);
    hide Indexed, Index;
  }

  lemma SettleKeeps(s: System, f: EffectId, outcome: Outcome)
    requires Inv(s) && f in s.running
    ensures Inv(Apply(s, EffectSettles(f, outcome)))
  {
    var r := s.running[f];
    UnindexLookup(s.ledger.effects, r.code, r.generation, f);
    hide Indexed, Unindex;
  }

  lemma GiveUpKeeps(s: System, c: CollectorId)
    requires Inv(s) && c in s.collectors
    ensures Inv(GiveUp(s, c))
  {
    hide EffectsInv;
  }

  lemma ConfirmKeeps(s: System, c: CollectorId, reading: Reading)
    requires Inv(s)
    ensures Inv(ConfirmStep(s, c, reading))
  {
    if c in s.collectors && s.collectors[c].phase.Confirming? {
      GiveUpKeeps(s, c);
      StartKeeps(s, c, s.collectors[c].phase.pin);
    }
    hide StartStep, GiveUp, EffectsInv, DebtsInv, Licensed;
  }

  lemma InvStep(s: System, e: Event)
    requires Inv(s)
    ensures Inv(Apply(s, e))
  {
    match e {
      case PinAnswers(c, _) => if c in s.collectors { GiveUpKeeps(s, c); }
      case BodyAnswers(c, _) => if c in s.collectors { GiveUpKeeps(s, c); }
      case ConfirmAnswers(c, reading) => ConfirmKeeps(s, c, reading);
      case EffectSettles(f, outcome) => if f in s.running { SettleKeeps(s, f, outcome); }
      case _ =>
    }
    hide EffectsInv, GiveUp, ConfirmStep, SettleEffect;
  }

  lemma {:induction false} InvRun(s: System, es: seq<Event>)
    requires Inv(s)
    ensures Inv(Run(s, es))
    decreases |es|
  {
    if es != [] {
      InvStep(s, es[0]);
      hide Inv, Apply;
      InvRun(Apply(s, es[0]), es[1..]);
    }
  }

  // ---- What the ledger promises ----

  /** One effect per code and generation at any time, and the owner of a debt is a running effect of that code,
      the newest of them. */
  lemma OneEffectPerGeneration(s0: System, es: seq<Event>)
    requires Initial(s0)
    ensures var s := Run(s0, es);
            && (forall f <- s.running, h <- s.running :: s.running[f] == s.running[h] ==> f == h)
            && (forall code <- s.ledger.debts :: s.ledger.debts[code].owner.Some? ==>
                  var f := s.ledger.debts[code].owner.value;
                  f in s.running && s.running[f].code == code && forall h <- s.running :: s.running[h].code == code ==> h <= f)
  {
    InvRun(s0, es);
    hide Run;
  }

  /** The step that takes a debt away: its owner applied, or a live room was seen under the code. */
  predicate Discharges(s: System, e: Event, code: Code) {
    match e
    case EffectSettles(f, outcome) =>
      f in s.running && s.running[f].code == code && outcome.Applied? && code in s.ledger.debts && s.ledger.debts[code].owner == Some(f)
    case BodyAnswers(c, seen) =>
      c in s.collectors && s.collectors[c].phase.Reading? && s.collectors[c].code == code && seen.LiveBody?
    case _ => false
  }

  lemma DebtLeavesOnlyByDischarge(s: System, e: Event, code: Code)
    requires code in s.ledger.debts
    ensures code !in Apply(s, e).ledger.debts <==> Discharges(s, e, code)
  {
  }

  /** Over a run: a debt that is gone was discharged at some step of it. */
  lemma {:induction false} LostDebtWasDischarged(s: System, es: seq<Event>, code: Code) returns (n: nat)
    requires code in s.ledger.debts && code !in Run(s, es).ledger.debts
    ensures n < |es| && Discharges(Run(s, es[..n]), es[n], code)
    decreases |es|
  {
    DebtLeavesOnlyByDischarge(s, es[0], code);
    hide Apply, Discharges;
    if Discharges(s, es[0], code) {
      n := 0;
    } else {
      var m := LostDebtWasDischarged(Apply(s, es[0]), es[1..], code);
      n := m + 1;
      assert es[..n][1..] == es[1..][..m];
    }
  }

  /** While a newer effect of the same code runs, an older one settles without changing any debt, whatever it
      reports. */
  lemma OlderEffectSettlesQuietly(s0: System, es: seq<Event>, f: EffectId, h: EffectId, outcome: Outcome)
    requires Initial(s0)
    requires var s := Run(s0, es); f in s.running && h in s.running && f < h && s.running[f].code == s.running[h].code
    ensures var s := Run(s0, es); Apply(s, EffectSettles(f, outcome)).ledger.debts == s.ledger.debts
  {
    InvRun(s0, es);
    hide Run, EffectsInv;
  }

  /** An effect settles without changing a debt of another code, or a debt it does not own; a failure keeps the
      debt's identity. */
  lemma ForeignDebtsAreKept(s0: System, es: seq<Event>, f: EffectId, outcome: Outcome)
    requires Initial(s0) && f in Run(s0, es).running
    ensures var s := Run(s0, es); var s1 := Apply(s, EffectSettles(f, outcome));
            var code := s.running[f].code;
            && (forall c | c != code :: (c in s1.ledger.debts <==> c in s.ledger.debts) && (c in s.ledger.debts ==> s1.ledger.debts[c] == s.ledger.debts[c]))
            && (!(code in s.ledger.debts && s.ledger.debts[code].owner == Some(f)) ==> s1.ledger.debts == s.ledger.debts)
            && (code in s.ledger.debts && !outcome.Applied? ==> code in s1.ledger.debts && s1.ledger.debts[code].id == s.ledger.debts[code].id)
  {
    hide Run;
  }

  // ---- What one answer does ----

  /** The collector could not read what it asked for. */
  predicate Inconclusive(s: System, e: Event, c: CollectorId)
    requires c in s.collectors
  {
    || (e == PinAnswers(c, Unreadable) && s.collectors[c].phase.Pinning?)
    || (e == BodyAnswers(c, UnreadableBody) && s.collectors[c].phase.Reading?)
    || (e == ConfirmAnswers(c, Unreadable) && s.collectors[c].phase.Confirming?)
  }

  /** Unknown is not absent: after a read that failed the code is owed a teardown. A debt it already had stands as it
      was, owner included; a new one waits for a fresh attempt. The collector ends, and nothing else changes. */
  lemma UnreadableLeavesADebt(s: System, e: Event, c: CollectorId)
    requires c in s.collectors && Inconclusive(s, e, c)
    ensures var s', code := Apply(s, e), s.collectors[c].code;
            && code in s'.ledger.debts
            && s'.ledger.debts[code] == (if code in s.ledger.debts then s.ledger.debts[code] else Debt(s.ledger.nextDebt, None))
            && s'.ledger.debts - {code} == s.ledger.debts - {code}
            && s'.ledger.effects == s.ledger.effects && s'.running == s.running
            && s'.collectors == s.collectors[c := s.collectors[c].(phase := Over)]
  {
  }

  /** Over a run: that debt is still there at the end, unless some step discharged it. */
  lemma UnreadableIsNotForgotten(s: System, e: Event, c: CollectorId, more: seq<Event>)
    requires c in s.collectors && Inconclusive(s, e, c)
    ensures var code := s.collectors[c].code; var t := Apply(s, e);
            code in Run(t, more).ledger.debts || exists n | 0 <= n < |more| :: Discharges(Run(t, more[..n]), more[n], code)
  {
    UnreadableLeavesADebt(s, e, c);
    hide Apply, Run, Discharges;
    if s.collectors[c].code !in Run(Apply(s, e), more).ledger.debts {
      var n := LostDebtWasDischarged(Apply(s, e), more, s.collectors[c].code);
    }
  }

  /** The effect that runs for a code and generation is the one to join. */
  lemma JoinedOrNew(s: System, code: Code, g: Generation)
    requires EffectsInv(s.ledger.effects, s.running, s.ledger.nextEffect)
    ensures var (l, f) := StartEffect(s.ledger, code, g);
            && ((exists h <- s.running :: s.running[h] == Running(code, g)) ==> f in s.running && s.running[f] == Running(code, g) && l == s.ledger)
            && ((forall h <- s.running :: s.running[h] != Running(code, g)) ==>
                  && f == s.ledger.nextEffect && f !in s.running && l != s.ledger
                  && l.debts == s.ledger.debts[code := Debt(s.ledger.nextDebt, Some(f))])
  {
    if h :| h in s.running && s.running[h] == Running(code, g) {
      assert Indexed(s.ledger.effects, code, g) == Some(h);
    }
    hide Index;
  }

  /** A conclusive answer takes the collector on. A pin is kept to the end; a live room discharges the debt; an absent
      one is confirmed; and a confirmed pin whose candidate still stands ends up waiting for an effect of exactly that
      code and generation, the one that runs or a new one that owns a new debt. A generation that moved, or a backlog
      item whose debt is no longer the one captured, ends the candidate and touches no effect and no debt. */
  lemma CollectorGoesOn(s: System, c: CollectorId, g: Generation)
    requires Inv(s) && c in s.collectors
    ensures var s', k := Apply(s, PinAnswers(c, Known(g))), s.collectors[c];
            k.phase.Pinning? ==> s' == s.(collectors := s.collectors[c := k.(phase := Reading(g))])
    ensures var s', k := Apply(s, BodyAnswers(c, NoBody)), s.collectors[c];
            k.phase.Reading? ==> s' == s.(collectors := s.collectors[c := k.(phase := Confirming(k.phase.pin))])
    ensures var s', k := Apply(s, BodyAnswers(c, LiveBody)), s.collectors[c];
            k.phase.Reading? ==>
              && s' == s.(ledger := s'.ledger, collectors := s.collectors[c := k.(phase := Over)])
              && s'.ledger == s.ledger.(debts := s.ledger.debts - {k.code})
    ensures var s', k := Apply(s, ConfirmAnswers(c, Known(g))), s.collectors[c];
            k.phase.Confirming? ==>
              && s'.collectors - {c} == s.collectors - {c} && c in s'.collectors
              && if g == k.phase.pin && (k.expected.None? || (k.code in s.ledger.debts && Some(s.ledger.debts[k.code].id) == k.expected)) then
                   && s'.collectors[c].phase.Waiting?
                   && var f := s'.collectors[c].phase.effect;
                      && f in s'.running && s'.running[f] == Running(k.code, g) && s'.running - {f} == s.running - {f}
                      && (if exists h <- s.running :: s.running[h] == Running(k.code, g)
                          then s'.ledger == s.ledger && s'.running == s.running
                          else f !in s.running && s'.ledger.debts == s.ledger.debts[k.code := Debt(s.ledger.nextDebt, Some(f))])
                 else s'.ledger == s.ledger && s'.running == s.running && s'.collectors[c].phase == Over
  {
    JoinedOrNew(s, s.collectors[c].code, g);
    hide EffectsInv, DebtsInv, StartEffect;
  }

  /** A settled effect no longer runs. The debt it owns is paid where the teardown applied and waits for a fresh attempt
      where it did not; every other debt stands. */
  lemma SettlementPaysItsDebt(s: System, f: EffectId, outcome: Outcome)
    requires f in s.running
    ensures var s', code := Apply(s, EffectSettles(f, outcome)), s.running[f].code;
            && s'.running == s.running - {f} && s'.collectors == s.collectors
            && s'.ledger.debts ==
                 if !(code in s.ledger.debts && s.ledger.debts[code].owner == Some(f)) then s.ledger.debts
                 else if outcome == Applied then s.ledger.debts - {code}
                 else s.ledger.debts[code := Debt(s.ledger.debts[code].id, None)]
  {
    hide Unindex;
  }

  lemma RunFour(s: System, a: Event, b: Event, c: Event, d: Event)
    ensures Run(s, [a, b, c, d]) == Apply(Apply(Apply(Apply(s, a), b), c), d)
  {
    hide Apply;
    assert [a, b, c, d][1..] == [b, c, d] && [b, c, d][1..] == [c, d] && [c, d][1..] == [d] && [d][1..] == [];
    assert Run(s, [a, b, c, d]) == Run(Apply(s, a), [b, c, d]) == Run(Apply(Apply(s, a), b), [c, d]);
    assert Run(Apply(Apply(s, a), b), [c, d]) == Run(Apply(Apply(Apply(s, a), b), c), [d]);
    assert Run(Apply(Apply(Apply(s, a), b), c), [d]) == Run(Apply(Apply(Apply(Apply(s, a), b), c), d), []);
  }

  /** A candidate that nobody disturbs is collected: from any reachable state, a fresh one or one of the backlog whose
      generation is read, whose body is absent and whose generation is confirmed waits for an effect of that code and
      generation. */
  lemma UndisturbedCollection(s0: System, es: seq<Event>, c: CollectorId, code: Code, g: Generation, fresh_: bool)
    requires Initial(s0) && c !in Run(s0, es).collectors
    ensures var s := Run(s0, es);
            var t := Run(s, [if fresh_ then CollectFresh(c, code) else CaptureBacklog(c, code), PinAnswers(c, Known(g)),
                             BodyAnswers(c, NoBody), ConfirmAnswers(c, Known(g))]);
            fresh_ || code in s.ledger.debts ==>
              && c in t.collectors && t.collectors[c].phase.Waiting? && t.collectors[c].phase.effect in t.running
              && t.running[t.collectors[c].phase.effect] == Running(code, g)
  {
    InvRun(s0, es);
    var s := Run(s0, es);
    var first := if fresh_ then CollectFresh(c, code) else CaptureBacklog(c, code);
    RunFour(s, first, PinAnswers(c, Known(g)), BodyAnswers(c, NoBody), ConfirmAnswers(c, Known(g)));
    if fresh_ || code in s.ledger.debts {
      InvStep(s, first);
      var s1 := Apply(s, first);
      assert c in s1.collectors && s1.ledger == s.ledger;
      assert s1.collectors[c] == Collector(code, if fresh_ then None else Some(s.ledger.debts[code].id), Pinning);
      hide Apply, Inv, Run;
      CollectorGoesOn(s1, c, g);
      var s2 := Apply(s1, PinAnswers(c, Known(g)));
      InvStep(s1, PinAnswers(c, Known(g)));
      CollectorGoesOn(s2, c, g);
      var s3 := Apply(s2, BodyAnswers(c, NoBody));
      InvStep(s2, BodyAnswers(c, NoBody));
      CollectorGoesOn(s3, c, g);
    }
  }

  /** The step creates a new effect for the code. */
  predicate Overtakes(s: System, e: Event, code: Code) {
    && e.ConfirmAnswers? && e.c in s.collectors && s.collectors[e.c].code == code
    && s.ledger.nextEffect < Apply(s, e).ledger.nextEffect
  }

  /** The step settles the owner of the code's debt. */
  predicate SettlesOwner(s: System, e: Event, code: Code) {
    && e.EffectSettles? && e.effect in s.running && s.running[e.effect].code == code
    && code in s.ledger.debts && s.ledger.debts[code].owner == Some(e.effect)
  }

  /** A debt that stands before and after a step is unchanged, or lost its owner to a settlement that did not apply,
      or was replaced by the debt of a new effect; an inconclusive read leaves it alone. */
  lemma StandingDebtStep(s: System, e: Event, code: Code)
    requires Inv(s) && code in s.ledger.debts && code in Apply(s, e).ledger.debts
    ensures var debt, debt' := s.ledger.debts[code], Apply(s, e).ledger.debts[code];
            || debt' == debt
            || (SettlesOwner(s, e, code) && !e.outcome.Applied? && debt' == debt.(owner := None))
            || (Overtakes(s, e, code) && debt' == Debt(s.ledger.nextDebt, Some(s.ledger.nextEffect)))
  {
    match e {
      case EffectSettles(f, _) =>
        assert f in s.running ==> Indexed(s.ledger.effects, s.running[f].code, s.running[f].generation) == Some(f);
      case _ =>
    }
    hide Inv, Index, Unindex;
  }

  /** Over a run: a debt whose owner does not settle, that no live room discharges and no new effect of its code
      replaces, stands unchanged, whatever else is read, collected or settled meanwhile. */
  lemma {:induction false} StandingDebtIsKept(s: System, es: seq<Event>, code: Code)
    requires Inv(s) && code in s.ledger.debts
    requires forall k | 0 <= k < |es| ::
               var t := Run(s, es[..k]); !Discharges(t, es[k], code) && !SettlesOwner(t, es[k], code) && !Overtakes(t, es[k], code)
    ensures code in Run(s, es).ledger.debts && Run(s, es).ledger.debts[code] == s.ledger.debts[code]
    decreases |es|
  {
    if es != [] {
      var t := Apply(s, es[0]);
      assert es[..0] == [];
      DebtLeavesOnlyByDischarge(s, es[0], code);
      assert code in t.ledger.debts;
      StandingDebtStep(s, es[0], code);
      InvStep(s, es[0]);
      hide Apply, Inv, Discharges, SettlesOwner, Overtakes;
      forall k | 0 <= k < |es[1..]|
        ensures var u := Run(t, es[1..][..k]);
                !Discharges(u, es[1..][k], code) && !SettlesOwner(u, es[1..][k], code) && !Overtakes(u, es[1..][k], code)
      {
        assert es[..k + 1][1..] == es[1..][..k];
        assert Run(s, es[..k + 1]) == Run(t, es[1..][..k]);
      }
      StandingDebtIsKept(t, es[1..], code);
    }
  }

  predicate Owns(s: System, f: EffectId) {
    exists code <- s.ledger.debts :: s.ledger.debts[code].owner == Some(f)
  }

  lemma OwnershipStep(s: System, e: Event, f: EffectId)
    requires f < s.ledger.nextEffect && !Owns(s, f)
    ensures f < Apply(s, e).ledger.nextEffect && !Owns(Apply(s, e), f)
  {
  }

  /** An effect that lost its debt, or never had one, never takes one back. */
  lemma {:induction false} OwnershipIsNeverRetaken(s: System, es: seq<Event>, f: EffectId)
    requires f < s.ledger.nextEffect && !Owns(s, f)
    ensures !Owns(Run(s, es), f)
    decreases |es|
  {
    if es != [] {
      OwnershipStep(s, es[0], f);
      hide Apply, Owns;
      OwnershipIsNeverRetaken(Apply(s, es[0]), es[1..], f);
    }
  }

  /** The debt this collector was captured with was settled or replaced. */
  predicate Overtaken(s: System, c: CollectorId) {
    && c in s.collectors
    && s.collectors[c].expected.Some?
    && s.collectors[c].expected.value < s.ledger.nextDebt
    && !Licensed(s.ledger, s.collectors[c].code, s.collectors[c].expected)
  }

  lemma OvertakenStep(s: System, e: Event, c: CollectorId)
    requires Overtaken(s, c)
    ensures Overtaken(Apply(s, e), c)
  {
  }

  lemma {:induction false} OvertakenRun(s: System, es: seq<Event>, c: CollectorId)
    requires Overtaken(s, c)
    ensures Overtaken(Run(s, es), c)
    decreases |es|
  {
    if es != [] {
      OvertakenStep(s, es[0], c);
      hide Apply, Overtaken;
      OvertakenRun(Apply(s, es[0]), es[1..], c);
    }
  }

  predicate CapturedInv(collectors: map<CollectorId, Collector>, nextDebt: DebtId) {
    forall c <- collectors :: collectors[c].expected.Some? ==> collectors[c].expected.value < nextDebt
  }

  lemma CapturedStep(s: System, e: Event)
    requires CapturedInv(s.collectors, s.ledger.nextDebt) && DebtsInv(s.ledger.debts, s.running, s.ledger.nextDebt)
    ensures CapturedInv(Apply(s, e).collectors, Apply(s, e).ledger.nextDebt)
  {
    hide Index, Unindex, SettleDebt;
  }

  lemma {:induction false} CapturedRun(s: System, es: seq<Event>)
    requires CapturedInv(s.collectors, s.ledger.nextDebt) && Inv(s)
    ensures CapturedInv(Run(s, es).collectors, Run(s, es).ledger.nextDebt)
    decreases |es|
  {
    if es != [] {
      CapturedStep(s, es[0]);
      InvStep(s, es[0]);
      hide Apply, CapturedInv, Inv;
      CapturedRun(Apply(s, es[0]), es[1..]);
    }
  }

  /** Once the debt a backlog item was captured with is settled or replaced, that item starts no effect, joins none
      and takes no debt, however its remaining reads are answered and whatever happens in between. */
  lemma OvertakenCandidateStartsNothing(s0: System, es: seq<Event>, more: seq<Event>, c: CollectorId, reading: Reading)
    requires Initial(s0)
    requires var s := Run(s0, es);
             c in s.collectors && s.collectors[c].expected.Some? && !Licensed(s.ledger, s.collectors[c].code, s.collectors[c].expected)
    ensures var s := Run(Run(s0, es), more); var s1 := Apply(s, ConfirmAnswers(c, reading));
            && s1.running == s.running && s1.ledger.effects == s.ledger.effects
            && (reading.Known? ==> s1.ledger == s.ledger)
            && c in s.collectors && c in s1.collectors
            && (s.collectors[c].phase.Confirming? ==> s1.collectors[c].phase == Over)
  {
    InvRun(s0, es);
    CapturedRun(s0, es);
    OvertakenRun(Run(s0, es), more, c);
    hide Run;
  }

  /** What licenses a new effect: a confirmed pin, an absent body in between, a standing debt for a backlog item,
      and no effect running for that code and generation. */
  lemma EffectStartsOnlyFromAConfirmedPin(s0: System, es: seq<Event>, e: Event, f: EffectId)
    requires Initial(s0)
    requires f !in Run(s0, es).running && f in Apply(Run(s0, es), e).running
    ensures var s := Run(s0, es);
            && e.ConfirmAnswers? && e.c in s.collectors && s.collectors[e.c].phase.Confirming?
            && var k := s.collectors[e.c];
               && e.reading == Known(k.phase.pin) && Licensed(s.ledger, k.code, k.expected)
               && (forall h <- s.running :: s.running[h] != Running(k.code, k.phase.pin))
               && f == s.ledger.nextEffect && Apply(s, e).ledger.debts[k.code] == Debt(s.ledger.nextDebt, Some(f))
  {
    InvRun(s0, es);
    hide Run;
  }
}
