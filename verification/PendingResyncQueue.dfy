/**
 At-least-once publication of room states over a bus that may hang.

 Each room has at most one record, driven by a loop that retries until the bus takes a publish or the stop switch
 fires. Publishes share a fixed number of slots, handed directly from a finished publish to the first waiter. A
 timeout gives up on an attempt without cancelling its call. Every `await` is a step boundary.
 */
module PendingResyncQueue {

  type Room = string

  /** Where one room's loop is parked. */
  datatype Phase =
    | AwaitingCall             // an earlier call has not answered
    | Waiting                  // in line for a slot
    | Handed                   // a finished publish handed its slot over
    | Granted                  // a slot is held, the publish is about to start
    | Refused                  // the stop switch answered instead of a slot
    | Publishing(startedAt: nat)
    | Settled(ok: bool)        // the attempt is over, the loop has not run on yet
    | BackingOff

  datatype Record = Record(pending: bool, phase: Phase)

  /** A publish that has not answered, named by its place in the log. */
  datatype Call = Call(room: Room, startedAt: nat)

  datatype Happening = Requested(room: Room) | Started(room: Room)

  datatype Queue = Queue(
    maxPublishes: nat,
    activePublishes: int,
    slotWaiters: seq<Room>,
    records: map<Room, Record>,
    stopped: bool,
    calls: set<Call>,
    // What happened, in order, and for each room where its last successful publish started.
    log: seq<Happening>,
    succeeded: map<Room, nat>
  )

  datatype Event =
    | Request(room: Room)
    | Resume(room: Room)       // run the room's loop to its next await
    | CallAnswers(call: Call, ok: bool)
    | TimeOut(room: Room)
    | StopRetrying

  function SetPhase(q: Queue, r: Room, phase: Phase): Queue
    requires r in q.records
  {
    q.(records := q.records[r := q.records[r].(phase := phase)])
  }

  function Finish(q: Queue, r: Room): Queue {
    q.(records := q.records - {r})
  }

  /** The first in line takes the slot over with the counter unchanged. */
  function ReleaseSlot(q: Queue): Queue {
    if q.slotWaiters != [] && q.slotWaiters[0] in q.records
    then SetPhase(q, q.slotWaiters[0], Handed).(slotWaiters := q.slotWaiters[1..])
    else q.(activePublishes := q.activePublishes - 1)
  }

  function AcquireSlot(q: Queue, r: Room): Queue
    requires r in q.records
  {
    if q.stopped then Finish(q, r)
    else if q.activePublishes < q.maxPublishes then SetPhase(q, r, Granted).(activePublishes := q.activePublishes + 1)
    else SetPhase(q, r, Waiting).(slotWaiters := q.slotWaiters + [r])
  }

  predicate HasCall(calls: set<Call>, r: Room) {
    exists call <- calls :: call.room == r
  }

  function BeginAttempt(q: Queue, r: Room): Queue
    requires r in q.records
  {
    if HasCall(q.calls, r) then SetPhase(q, r, AwaitingCall) else AcquireSlot(q, r)
  }

  /** The loop's condition, and the first attempt of the next round. */
  function LoopHead(q: Queue, r: Room): Queue
    requires r in q.records
  {
    if q.records[r].pending && !q.stopped
    then BeginAttempt(q.(records := q.records[r := Record(false, AwaitingCall)]), r)
    else Finish(q, r)
  }

  function RequestStep(q: Queue, r: Room): Queue {
    var q1 := q.(log := q.log + [Requested(r)]);
    if r in q.records then q1.(records := q.records[r := q.records[r].(pending := true)])
    else LoopHead(q1.(records := q.records[r := Record(true, AwaitingCall)]), r)
  }

  function StartPublish(q: Queue, r: Room): Queue
    requires r in q.records
  {
    var t := |q.log|;
    SetPhase(q, r, Publishing(t)).(calls := q.calls + {Call(r, t)}, log := q.log + [Started(r)])
  }

  function ResumeStep(q: Queue, r: Room): Queue {
    if r !in q.records then q
    else match q.records[r].phase
      case AwaitingCall =>
        if q.stopped then Finish(q, r) else if HasCall(q.calls, r) then q else AcquireSlot(q, r)
      case Waiting => q
      case Handed =>
        // The stop switch may have fired since the slot was handed over; it is then given back.
        if q.stopped then Finish(ReleaseSlot(q), r) else SetPhase(q, r, Granted)
      case Granted => StartPublish(q, r)
      case Refused => Finish(q, r)
      case Publishing(_) => q
      case Settled(ok) =>
        if ok then LoopHead(q, r) else if q.stopped then Finish(q, r) else SetPhase(q, r, BackingOff)
      case BackingOff => if q.stopped then Finish(q, r) else BeginAttempt(q, r)
  }

  /** What the room's loop learns from the answer, if it still waits for it. */
  function Settle(q: Queue, call: Call, ok: bool): Queue {
    var q1 := q.(calls := q.calls - {call}, succeeded := if ok then q.succeeded[call.room := call.startedAt] else q.succeeded);
    if call.room in q.records && q.records[call.room].phase == Publishing(call.startedAt)
    then SetPhase(q1, call.room, Settled(ok)) else q1
  }

  function CallAnswersStep(q: Queue, call: Call, ok: bool): Queue {
    if call !in q.calls then q else ReleaseSlot(Settle(q, call, ok))
  }

  function TimeOutStep(q: Queue, r: Room): Queue {
    if r in q.records && q.records[r].phase.Publishing? then SetPhase(q, r, Settled(false)) else q
  }

  function Refuse(records: map<Room, Record>, woken: seq<Room>): map<Room, Record> {
    map r | r in records :: if r in woken then records[r].(phase := Refused) else records[r]
  }

  lemma RefuseNone(records: map<Room, Record>)
    ensures Refuse(records, []) == records
  {
  }

  lemma RefuseSnoc(records: map<Room, Record>, woken: seq<Room>, r: Room)
    ensures var before := Refuse(records, woken);
            && before.Keys == records.Keys
            && Refuse(records, woken + [r]) == if r in records then before[r := before[r].(phase := Refused)] else before
  {
  }

  /** The whole line is sent away without slots. */
  function StopStep(q: Queue): Queue {
    q.(stopped := true, slotWaiters := [], records := Refuse(q.records, q.slotWaiters))
  }

  function Apply(q: Queue, e: Event): Queue {
    match e
    case Request(r) => RequestStep(q, r)
    case Resume(r) => ResumeStep(q, r)
    case CallAnswers(call, ok) => CallAnswersStep(q, call, ok)
    case TimeOut(r) => TimeOutStep(q, r)
    case StopRetrying => StopStep(q)
  }

  function Run(q: Queue, es: seq<Event>): Queue
    decreases |es|
  {
    if es == [] then q else Run(Apply(q, es[0]), es[1..])
  }

  predicate Initial(q: Queue) {
    && q.maxPublishes >= 1 && q.activePublishes == 0 && q.slotWaiters == [] && q.records == map[]
    && !q.stopped && q.calls == {} && q.log == [] && q.succeeded == map[]
  }

  /** The queue's mutable fields, changed in place between two awaits. */
  class ResyncQueue {
    const maxPublishes: nat
    var activePublishes: int
    var slotWaiters: seq<Room>
    var records: map<Room, Record>
    var stopped: bool
    var calls: set<Call>
    ghost var log: seq<Happening>
    ghost var succeeded: map<Room, nat>
    /** Where the next publish will stand in the log. */
    var clock: nat

    ghost function View(): Queue
      reads this
    {
      Queue(maxPublishes, activePublishes, slotWaiters, records, stopped, calls, log, succeeded)
    }

    ghost predicate Valid()
      reads this
    {
      Inv(View()) && clock == |log|
    }

    constructor (maxConcurrentPublishes: int)
      ensures Initial(View()) && Valid() && maxPublishes == if maxConcurrentPublishes < 1 then 1 else maxConcurrentPublishes
    {
      maxPublishes := if maxConcurrentPublishes < 1 then 1 else maxConcurrentPublishes;
      activePublishes, slotWaiters, records, stopped, calls, log, succeeded := 0, [], map[], false, {}, [], map[];
      clock := 0;
      new;
      InvAtStart(View());
    }

    method GiveSlotBack()
      requires slotWaiters != [] ==> slotWaiters[0] in records
      modifies `slotWaiters, `records, `activePublishes
      ensures View() == ReleaseSlot(old(View()))
    {
      if slotWaiters != [] {
        var next := slotWaiters[0];
        slotWaiters := slotWaiters[1..];
        records := records[next := records[next].(phase := Handed)];
        return;
      }
      activePublishes := activePublishes - 1;
    }

    method TakeSlot(r: Room)
      requires r in records
      modifies `slotWaiters, `records, `activePublishes
      ensures View() == AcquireSlot(old(View()), r)
    {
      if stopped {
        records := records - {r};
      } else if activePublishes < maxPublishes {
        activePublishes := activePublishes + 1;
        records := records[r := records[r].(phase := Granted)];
      } else {
        slotWaiters := slotWaiters + [r];
        records := records[r := records[r].(phase := Waiting)];
      }
    }

    method TryAttempt(r: Room)
      requires r in records
      modifies `slotWaiters, `records, `activePublishes
      ensures View() == BeginAttempt(old(View()), r)
    {
      if exists call <- calls :: call.room == r {
        records := records[r := records[r].(phase := AwaitingCall)];
      } else {
        TakeSlot(r);
      }
    }

    method NextRound(r: Room)
      requires r in records
      modifies `slotWaiters, `records, `activePublishes
      ensures View() == LoopHead(old(View()), r)
    {
      if records[r].pending && !stopped {
        records := records[r := Record(false, AwaitingCall)];
        TryAttempt(r);
      } else {
        records := records - {r};
      }
    }

    method Request(r: Room)
      requires Valid()
      modifies this
      ensures View() == RequestStep(old(View()), r) && Valid()
    {
      InvStep(View(), Event.Request(r));
      log, clock := log + [Requested(r)], clock + 1;
      if r in records {
        records := records[r := records[r].(pending := true)];
        return;
      }
      records := records[r := Record(true, AwaitingCall)];
      NextRound(r);
    }

    method Publish(r: Room)
      requires r in records && clock == |log|
      modifies `records, `calls, `log, `clock
      ensures View() == StartPublish(old(View()), r) && clock == |log|
    {
      records := records[r := records[r].(phase := Publishing(clock))];
      calls := calls + {Call(r, clock)};
      log, clock := log + [Started(r)], clock + 1;
    }

    /** The room's loop after whatever it awaited came back. */
    method Drive(r: Room)
      requires Valid()
      modifies this
      ensures View() == ResumeStep(old(View()), r) && Valid()
      ensures !old(stopped) && r in old(records) && old(records)[r].phase.BackingOff? ==> AboutToPublish(old(View()), View(), r)
    {
      InvStep(View(), Resume(r));
      if r in records && !stopped { LoopGoesOn(View(), r); }
      if r !in records {
        return;
      }
      match records[r].phase {
        case AwaitingCall =>
          if stopped {
            records := records - {r};
          } else if !(exists call <- calls :: call.room == r) {
            TakeSlot(r);
          }
        case Waiting =>
        case Handed =>
          if stopped {
            GiveSlotBack();
            records := records - {r};
          } else {
            records := records[r := records[r].(phase := Granted)];
          }
        case Granted => Publish(r);
        case Refused => records := records - {r};
        case Publishing(_) =>
        case Settled(ok) =>
          if ok {
            NextRound(r);
          } else if stopped {
            records := records - {r};
          } else {
            records := records[r := records[r].(phase := BackingOff)];
          }
        case BackingOff =>
          if stopped {
            records := records - {r};
          } else {
            TryAttempt(r);
          }
      }
    }

    method SettleAttempt(call: Call, ok: bool)
      modifies `calls, `succeeded, `records
      ensures View() == Settle(old(View()), call, ok)
    {
      calls := calls - {call};
      if ok {
        succeeded := succeeded[call.room := call.startedAt];
      }
      if call.room in records && records[call.room].phase == Publishing(call.startedAt) {
        records := records[call.room := records[call.room].(phase := Settled(ok))];
      }
    }

    method PublishAnswered(call: Call, ok: bool)
      requires Valid() && call in calls
      modifies this
      ensures View() == CallAnswersStep(old(View()), call, ok) && Valid()
    {
      ghost var before := View();
      InvStep(before, CallAnswers(call, ok));
      SettleKeepsTheLine(before, call, ok);
      hide Inv, Settle, ReleaseSlot;
      SettleAttempt(call, ok);
      GiveSlotBack();
    }

    method AttemptTimedOut(r: Room)
      requires Valid() && r in records && records[r].phase.Publishing?
      modifies `records
      ensures View() == TimeOutStep(old(View()), r) && Valid()
    {
      InvStep(View(), TimeOut(r));
      records := records[r := records[r].(phase := Settled(false))];
    }

    method WakeWaiters()
      modifies `slotWaiters, `records
      ensures slotWaiters == [] && records == Refuse(old(records), old(slotWaiters))
    {
      ghost var before := records;
      ghost var line := slotWaiters;
      ghost var woken := [];
      RefuseNone(before);
      hide Refuse;
      while slotWaiters != []
        invariant line == woken + slotWaiters
        invariant records == Refuse(before, woken)
        decreases |slotWaiters|
      {
        var next := slotWaiters[0];
        RefuseSnoc(before, woken, next);
        assert line == woken + [next] + slotWaiters[1..];
        woken := woken + [next];
        slotWaiters := slotWaiters[1..];
        if next in records {
          records := records[next := records[next].(phase := Refused)];
        }
      }
      assert line == woken;
    }

    method StopRetrying()
      requires Valid()
      modifies `stopped, `slotWaiters, `records
      ensures View() == StopStep(old(View())) && Valid()
    {
      StopKeeps(View());
      hide Inv, Refuse;
      stopped := true;
      WakeWaiters();
    }
  }

  // ---- What every step keeps ----

  predicate HoldsSlot(phase: Phase) {
    phase.Handed? || phase.Granted?
  }

  function Holders(records: map<Room, Record>): set<Room> {
    set r | r in records && HoldsSlot(records[r].phase)
  }

  predicate SlotsInv(maxPublishes: nat, active: int, waiters: seq<Room>, records: map<Room, Record>, calls: set<Call>) {
    && active == |calls| + |Holders(records)|
    && active <= maxPublishes
    && (waiters != [] ==> active == maxPublishes)
  }

  /** The line holds exactly the records that wait, each once. */
  predicate LineInv(waiters: seq<Room>, records: map<Room, Record>, stopped: bool) {
    && (forall i | 0 <= i < |waiters| :: waiters[i] in records && records[waiters[i]].phase.Waiting?)
    && (forall i, j | 0 <= i < j < |waiters| :: waiters[i] != waiters[j])
    && (forall r <- records :: records[r].phase.Waiting? ==> r in waiters)
    && (stopped ==> waiters == [])
    && (!stopped ==> forall r <- records :: !records[r].phase.Refused?)
  }

  /** A call belongs to the record that is publishing, or that gave up on it and has not started another. */
  predicate CallsInv(calls: set<Call>, records: map<Room, Record>, stopped: bool, log: seq<Happening>) {
    && (forall c <- calls, d <- calls :: c.room == d.room ==> c == d)
    && (forall c <- calls :: c.startedAt < |log|)
    && (forall c <- calls :: c.room in records || stopped)
    && (forall c <- calls :: c.room in records ==>
          var phase := records[c.room].phase;
          phase == Publishing(c.startedAt) || phase == Settled(false) || phase.BackingOff? || phase.AwaitingCall?)
    && (forall r <- records :: records[r].phase.Publishing? ==> Call(r, records[r].phase.startedAt) in calls)
  }

  /** No request for the room since position `t`. */
  predicate NoRequestSince(log: seq<Happening>, r: Room, t: nat) {
    forall p | t <= p < |log| :: log[p] != Requested(r)
  }

  predicate Covered(log: seq<Happening>, succeeded: map<Room, nat>, r: Room) {
    r in succeeded && NoRequestSince(log, r, succeeded[r])
  }

  /** A record that owes nothing more is publishing, or has published, since the latest request. */
  predicate OwedInv(records: map<Room, Record>, log: seq<Happening>, succeeded: map<Room, nat>) {
    && (forall r <- records :: records[r].phase.Publishing? && !records[r].pending ==>
          NoRequestSince(log, r, records[r].phase.startedAt))
    && (forall r <- records :: records[r].phase == Settled(true) && !records[r].pending ==> Covered(log, succeeded, r))
  }

  predicate DoneInv(records: map<Room, Record>, stopped: bool, log: seq<Happening>, succeeded: map<Room, nat>) {
    !stopped ==> forall p | 0 <= p < |log| :: log[p].Requested? && log[p].room !in records ==> Covered(log, succeeded, log[p].room)
  }

  predicate Inv(q: Queue) {
    && SlotsInv(q.maxPublishes, q.activePublishes, q.slotWaiters, q.records, q.calls)
    && LineInv(q.slotWaiters, q.records, q.stopped)
    && CallsInv(q.calls, q.records, q.stopped, q.log)
    && OwedInv(q.records, q.log, q.succeeded)
    && DoneInv(q.records, q.stopped, q.log, q.succeeded)
  }

  // Each lemma below keeps the invariant over one piece of the loop.

  /** A record moves between phases that hold no slot, wait in no line and owe the same. */
  predicate Plain(phase: Phase) {
    phase == Settled(false) || phase.BackingOff? || phase.AwaitingCall?
  }

  lemma HoldersSame(records: map<Room, Record>, r: Room, rec: Record)
    requires r in records && HoldsSlot(rec.phase) == HoldsSlot(records[r].phase)
    ensures Holders(records[r := rec]) == Holders(records)
  {
  }

  lemma HoldersGain(records: map<Room, Record>, r: Room, rec: Record)
    requires r in records && HoldsSlot(rec.phase) && !HoldsSlot(records[r].phase)
    ensures |Holders(records[r := rec])| == |Holders(records)| + 1
  {
    assert Holders(records[r := rec]) == Holders(records) + {r};
  }

  lemma HoldersLose(records: map<Room, Record>, r: Room, rec: Record)
    requires r in records && !HoldsSlot(rec.phase) && HoldsSlot(records[r].phase)
    ensures |Holders(records[r := rec])| == |Holders(records)| - 1
  {
    assert Holders(records[r := rec]) == Holders(records) - {r};
  }

  lemma PlainKeeps(q: Queue, r: Room, phase: Phase)
    requires Inv(q) && r in q.records && Plain(phase)
    requires Plain(q.records[r].phase) || q.records[r].phase.Publishing?
    ensures Inv(SetPhase(q, r, phase))
  {
    HoldersSame(q.records, r, q.records[r].(phase := phase));
    hide Holders, NoRequestSince;
  }

  lemma SettleKeepsTheLine(q: Queue, call: Call, ok: bool)
    requires Inv(q)
    ensures var q1 := Settle(q, call, ok); q1.slotWaiters == q.slotWaiters && (q.slotWaiters != [] ==> q.slotWaiters[0] in q1.records)
  {
  }

  lemma FinishKeeps(q: Queue, r: Room)
    requires Inv(q) && r in q.records && !HoldsSlot(q.records[r].phase) && !q.records[r].phase.Waiting?
    requires q.stopped || (q.records[r].phase == Settled(true) && !q.records[r].pending)
    ensures Inv(Finish(q, r))
  {
    assert Holders(q.records - {r}) == Holders(q.records);
    hide Holders, NoRequestSince;
  }

  lemma AcquireKeepsSlots(q: Queue, r: Room)
    requires Inv(q) && !q.stopped && r in q.records && Plain(q.records[r].phase)
    ensures var q1 := AcquireSlot(q, r);
            && SlotsInv(q1.maxPublishes, q1.activePublishes, q1.slotWaiters, q1.records, q1.calls)
            && LineInv(q1.slotWaiters, q1.records, q1.stopped)
  {
    if q.activePublishes < q.maxPublishes {
      HoldersGain(q.records, r, q.records[r].(phase := Granted));
    } else {
      HoldersSame(q.records, r, q.records[r].(phase := Waiting));
    }
    hide Holders, CallsInv, OwedInv, DoneInv;
  }

  /** A record without a call out may move to a phase that owes the same. */
  lemma MoveKeepsDebts(q: Queue, r: Room, phase: Phase)
    requires Inv(q) && r in q.records && !HasCall(q.calls, r)
    requires !phase.Publishing? && phase != Settled(true)
    ensures var records := q.records[r := q.records[r].(phase := phase)];
            && CallsInv(q.calls, records, q.stopped, q.log) && OwedInv(records, q.log, q.succeeded)
            && DoneInv(records, q.stopped, q.log, q.succeeded)
  {
    hide Holders, NoRequestSince, SlotsInv, LineInv;
  }

  lemma AcquireKeeps(q: Queue, r: Room)
    requires Inv(q) && r in q.records && Plain(q.records[r].phase) && !HasCall(q.calls, r)
    ensures Inv(AcquireSlot(q, r))
  {
    if q.stopped {
      FinishKeeps(q, r);
    } else {
      AcquireKeepsSlots(q, r);
      MoveKeepsDebts(q, r, Granted);
      MoveKeepsDebts(q, r, Waiting);
    }
    hide SlotsInv, LineInv, CallsInv, OwedInv, DoneInv;
  }

  lemma BeginKeeps(q: Queue, r: Room)
    requires Inv(q) && r in q.records && Plain(q.records[r].phase)
    ensures Inv(BeginAttempt(q, r))
  {
    PlainKeeps(q, r, AwaitingCall);
    if !HasCall(q.calls, r) {
      AcquireKeeps(q, r);
    }
    hide Inv;
  }

  lemma LoopKeeps(q: Queue, r: Room)
    requires Inv(q) && r in q.records && q.records[r].phase == Settled(true)
    ensures Inv(LoopHead(q, r))
  {
    if q.records[r].pending && !q.stopped {
      var q1 := q.(records := q.records[r := Record(false, AwaitingCall)]);
      HoldersSame(q.records, r, Record(false, AwaitingCall));
      assert Inv(q1) by {
        hide Holders, NoRequestSince;
      }
      BeginKeeps(q1, r);
    } else {
      FinishKeeps(q, r);
    }
    hide Inv;
  }

  lemma LogGrows(log: seq<Happening>, h: Happening, r: Room, t: nat)
    requires NoRequestSince(log, r, t) && h != Requested(r)
    ensures NoRequestSince(log + [h], r, t)
  {
  }

  lemma LogGrowsWithRequest(q: Queue, r: Room)
    ensures forall r0, t: nat | r0 != r && NoRequestSince(q.log, r0, t) :: NoRequestSince(q.log + [Requested(r)], r0, t)
  {
    forall r0, t: nat | r0 != r && NoRequestSince(q.log, r0, t)
      ensures NoRequestSince(q.log + [Requested(r)], r0, t)
    {
      LogGrows(q.log, Requested(r), r0, t);
    }
  }

  lemma RequestAgainKeeps(q: Queue, r: Room)
    requires Inv(q) && r in q.records
    ensures Inv(RequestStep(q, r))
  {
    HoldersSame(q.records, r, q.records[r].(pending := true));
    LogGrowsWithRequest(q, r);
    hide Holders, NoRequestSince;
  }

  /** A new record owes a publish, and nothing of its room is under way. */
  lemma NewRecordKeeps(q: Queue, r: Room)
    requires Inv(q) && r !in q.records && !q.stopped
    ensures Inv(q.(records := q.records[r := Record(false, AwaitingCall)], log := q.log + [Requested(r)]))
  {
    assert Holders(q.records[r := Record(false, AwaitingCall)]) == Holders(q.records);
    LogGrowsWithRequest(q, r);
    hide Holders, NoRequestSince;
  }

  lemma UnservedRequestKeeps(q: Queue, r: Room)
    requires Inv(q) && r !in q.records && q.stopped
    ensures Inv(q.(log := q.log + [Requested(r)]))
  {
    LogGrowsWithRequest(q, r);
    hide Holders, NoRequestSince, SlotsInv, LineInv;
  }

  lemma RequestNewKeeps(q: Queue, r: Room)
    requires Inv(q) && r !in q.records
    ensures Inv(RequestStep(q, r))
  {
    if q.stopped {
      UnservedRequestKeeps(q, r);
      assert q.records[r := Record(true, AwaitingCall)] - {r} == q.records;
    } else {
      var records := q.records[r := Record(false, AwaitingCall)];
      NewRecordKeeps(q, r);
      assert q.records[r := Record(true, AwaitingCall)][r := Record(false, AwaitingCall)] == records;
      BeginKeeps(q.(records := records, log := q.log + [Requested(r)]), r);
    }
    hide Inv, BeginAttempt;
  }

  lemma LogGrowsWithStart(q: Queue, r: Room)
    ensures forall r0, t: nat | NoRequestSince(q.log, r0, t) :: NoRequestSince(q.log + [Started(r)], r0, t)
  {
    forall r0, t: nat | NoRequestSince(q.log, r0, t)
      ensures NoRequestSince(q.log + [Started(r)], r0, t)
    {
      LogGrows(q.log, Started(r), r0, t);
    }
  }

  lemma StartKeepsCalls(q: Queue, r: Room)
    requires r in q.records && q.records[r].phase.Granted? && CallsInv(q.calls, q.records, q.stopped, q.log)
    ensures var q1 := StartPublish(q, r); CallsInv(q1.calls, q1.records, q1.stopped, q1.log) && Call(r, |q.log|) !in q.calls
  {
  }

  lemma StartKeepsDebts(q: Queue, r: Room)
    requires r in q.records && q.records[r].phase.Granted?
    requires OwedInv(q.records, q.log, q.succeeded) && DoneInv(q.records, q.stopped, q.log, q.succeeded)
    ensures var q1 := StartPublish(q, r);
            OwedInv(q1.records, q1.log, q1.succeeded) && DoneInv(q1.records, q1.stopped, q1.log, q1.succeeded)
  {
    assert NoRequestSince(q.log + [Started(r)], r, |q.log|);
    LogGrowsWithStart(q, r);
    hide NoRequestSince;
  }

  lemma StartKeepsSlots(q: Queue, r: Room)
    requires r in q.records && q.records[r].phase.Granted? && Call(r, |q.log|) !in q.calls
    requires SlotsInv(q.maxPublishes, q.activePublishes, q.slotWaiters, q.records, q.calls)
    requires LineInv(q.slotWaiters, q.records, q.stopped)
    ensures var q1 := StartPublish(q, r);
            && SlotsInv(q1.maxPublishes, q1.activePublishes, q1.slotWaiters, q1.records, q1.calls)
            && LineInv(q1.slotWaiters, q1.records, q1.stopped)
  {
    HoldersLose(q.records, r, q.records[r].(phase := Publishing(|q.log|)));
    hide Holders;
  }

  lemma StartKeeps(q: Queue, r: Room)
    requires Inv(q) && r in q.records && q.records[r].phase.Granted?
    ensures Inv(StartPublish(q, r))
  {
    hide SlotsInv, LineInv, CallsInv, OwedInv, DoneInv, StartPublish;
    StartKeepsCalls(q, r);
    StartKeepsSlots(q, r);
    StartKeepsDebts(q, r);
  }

  /** The slots are one short of what is counted until the finished publish gives its slot away. */
  predicate OneOver(q: Queue) {
    && q.activePublishes == |q.calls| + |Holders(q.records)| + 1
    && q.activePublishes <= q.maxPublishes
    && (q.slotWaiters != [] ==> q.activePublishes == q.maxPublishes)
  }

  lemma ReleaseKeeps(q: Queue)
    requires OneOver(q) && LineInv(q.slotWaiters, q.records, q.stopped) && CallsInv(q.calls, q.records, q.stopped, q.log)
    requires OwedInv(q.records, q.log, q.succeeded) && DoneInv(q.records, q.stopped, q.log, q.succeeded)
    ensures Inv(ReleaseSlot(q))
  {
    if q.slotWaiters != [] {
      var r := q.slotWaiters[0];
      HoldersGain(q.records, r, q.records[r].(phase := Handed));
    }
    hide Holders, NoRequestSince;
  }

  lemma SettleKeepsCalls(q: Queue, call: Call, ok: bool)
    requires call in q.calls && CallsInv(q.calls, q.records, q.stopped, q.log)
    ensures var q1 := Settle(q, call, ok); CallsInv(q1.calls, q1.records, q1.stopped, q1.log)
  {
  }

  lemma SettleKeepsSlots(q: Queue, call: Call, ok: bool)
    requires call in q.calls && SlotsInv(q.maxPublishes, q.activePublishes, q.slotWaiters, q.records, q.calls)
    requires LineInv(q.slotWaiters, q.records, q.stopped)
    ensures var q1 := Settle(q, call, ok); OneOver(q1) && LineInv(q1.slotWaiters, q1.records, q1.stopped)
  {
    if call.room in q.records && q.records[call.room].phase == Publishing(call.startedAt) {
      HoldersSame(q.records, call.room, q.records[call.room].(phase := Settled(ok)));
    }
    hide Holders;
  }

  lemma SettleKeepsDebts(q: Queue, call: Call, ok: bool)
    requires call in q.calls && CallsInv(q.calls, q.records, q.stopped, q.log)
    requires OwedInv(q.records, q.log, q.succeeded) && DoneInv(q.records, q.stopped, q.log, q.succeeded)
    ensures var q1 := Settle(q, call, ok);
            OwedInv(q1.records, q1.log, q1.succeeded) && DoneInv(q1.records, q1.stopped, q1.log, q1.succeeded)
  {
    hide NoRequestSince;
  }

  lemma SettleKeeps(q: Queue, call: Call, ok: bool)
    requires Inv(q) && call in q.calls
    ensures var q1 := Settle(q, call, ok);
            && OneOver(q1) && LineInv(q1.slotWaiters, q1.records, q1.stopped) && CallsInv(q1.calls, q1.records, q1.stopped, q1.log)
            && OwedInv(q1.records, q1.log, q1.succeeded) && DoneInv(q1.records, q1.stopped, q1.log, q1.succeeded)
  {
    hide CallsInv, OwedInv, DoneInv, SlotsInv, LineInv, OneOver, Settle;
    SettleKeepsSlots(q, call, ok);
    SettleKeepsCalls(q, call, ok);
    SettleKeepsDebts(q, call, ok);
  }

  lemma GiveBackKeepsSlots(q: Queue, r: Room)
    requires r in q.records && q.records[r].phase.Handed? && q.slotWaiters == []
    requires SlotsInv(q.maxPublishes, q.activePublishes, [], q.records, q.calls)
    ensures SlotsInv(q.maxPublishes, q.activePublishes - 1, [], q.records - {r}, q.calls)
  {
    assert Holders(q.records - {r}) == Holders(q.records) - {r};
  }

  lemma GiveBackKeeps(q: Queue, r: Room)
    requires Inv(q) && q.stopped && r in q.records && q.records[r].phase.Handed?
    ensures Inv(Finish(ReleaseSlot(q), r))
  {
    assert Finish(ReleaseSlot(q), r) == q.(activePublishes := q.activePublishes - 1, records := q.records - {r});
    hide ReleaseSlot, Finish;
    GiveBackKeepsSlots(q, r);
    hide SlotsInv, NoRequestSince;
  }

  lemma GrantKeeps(q: Queue, r: Room)
    requires Inv(q) && r in q.records && q.records[r].phase.Handed?
    ensures Inv(SetPhase(q, r, Granted))
  {
    HoldersSame(q.records, r, q.records[r].(phase := Granted));
    hide Holders, NoRequestSince;
  }

  lemma ResumeKeeps(q: Queue, r: Room)
    requires Inv(q)
    ensures Inv(ResumeStep(q, r))
  {
    if r in q.records {
      match q.records[r].phase {
        case AwaitingCall =>
          if q.stopped { FinishKeeps(q, r); } else if !HasCall(q.calls, r) { AcquireKeeps(q, r); }
        case Waiting =>
        case Handed =>
          if q.stopped { GiveBackKeeps(q, r); } else { GrantKeeps(q, r); }
        case Granted => StartKeeps(q, r);
        case Refused =>
          assert q.stopped;
          FinishKeeps(q, r);
        case Publishing(_) =>
        case Settled(ok) =>
          if ok { LoopKeeps(q, r); } else if q.stopped { FinishKeeps(q, r); } else { PlainKeeps(q, r, BackingOff); }
        case BackingOff =>
          if q.stopped { FinishKeeps(q, r); } else { BeginKeeps(q, r); }
      }
    }
    hide Inv, AcquireSlot, BeginAttempt, LoopHead, StartPublish, ReleaseSlot;
  }

  lemma StopKeeps(q: Queue)
    requires Inv(q)
    ensures Inv(StopStep(q))
  {
    assert Holders(StopStep(q).records) == Holders(q.records);
    hide Holders, NoRequestSince;
  }

  lemma InvStep(q: Queue, e: Event)
    requires Inv(q)
    ensures Inv(Apply(q, e))
  {
    match e {
      case Request(r) => if r in q.records { RequestAgainKeeps(q, r); } else { RequestNewKeeps(q, r); }
      case Resume(r) => ResumeKeeps(q, r);
      case CallAnswers(call, ok) =>
        if call in q.calls {
          SettleKeeps(q, call, ok);
          ReleaseKeeps(Settle(q, call, ok));
        }
      case TimeOut(r) =>
        if r in q.records && q.records[r].phase.Publishing? { PlainKeeps(q, r, Settled(false)); }
      case StopRetrying => StopKeeps(q);
    }
    hide Inv, RequestStep, ResumeStep, Settle, ReleaseSlot, StopStep, SetPhase;
  }

  lemma {:induction false} InvRun(q: Queue, es: seq<Event>)
    requires Inv(q)
    ensures Inv(Run(q, es))
    decreases |es|
  {
    if es != [] {
      InvStep(q, es[0]);
      hide Inv, Apply;
      InvRun(Apply(q, es[0]), es[1..]);
    }
  }

  lemma InvAtStart(q: Queue)
    requires Initial(q)
    ensures Inv(q)
  {
    assert Holders(q.records) == {};
  }

  // ---- What the queue promises ----

  /** The counter is the number of unanswered publishes and of slots in transit, and never exceeds the limit; a
      room waits only where every slot is taken, and nobody waits once the queue stops. */
  lemma SlotsAreConserved(q0: Queue, es: seq<Event>)
    requires Initial(q0)
    ensures var q := Run(q0, es);
            && q.activePublishes == |q.calls| + |Holders(q.records)|
            && q.activePublishes <= q.maxPublishes
            && (q.slotWaiters != [] ==> q.activePublishes == q.maxPublishes && !q.stopped)
  {
    InvAtStart(q0);
    InvRun(q0, es);
    hide Run;
  }

  /** A room never has two publishes unanswered, whatever timed out in between. */
  lemma OneUnansweredPublishPerRoom(q0: Queue, es: seq<Event>, c: Call, d: Call)
    requires Initial(q0)
    ensures var q := Run(q0, es); c in q.calls && d in q.calls && c.room == d.room ==> c == d
  {
    InvAtStart(q0);
    InvRun(q0, es);
    hide Run;
  }

  /** `succeeded` names a start of that very room: nothing is recorded that was not published. */
  predicate Recorded(calls: set<Call>, log: seq<Happening>, succeeded: map<Room, nat>) {
    && (forall c <- calls :: c.startedAt < |log| && log[c.startedAt] == Started(c.room))
    && (forall r <- succeeded :: succeeded[r] < |log| && log[succeeded[r]] == Started(r))
  }

  lemma ResumeRecords(q: Queue, r: Room)
    requires Recorded(q.calls, q.log, q.succeeded)
    ensures var q1 := ResumeStep(q, r); Recorded(q1.calls, q1.log, q1.succeeded)
  {
    var q1 := ResumeStep(q, r);
    if !(r in q.records && q.records[r].phase.Granted?) {
      assert q1.calls == q.calls && q1.log == q.log && q1.succeeded == q.succeeded by {
        hide HasCall, Recorded;
      }
      hide ResumeStep;
    }
  }

  lemma SlotRecords(q: Queue)
    ensures ReleaseSlot(q).calls == q.calls && ReleaseSlot(q).log == q.log && ReleaseSlot(q).succeeded == q.succeeded
  {
  }

  lemma AnswerRecords(q: Queue, call: Call, ok: bool)
    requires Recorded(q.calls, q.log, q.succeeded) && call in q.calls
    ensures var q1 := CallAnswersStep(q, call, ok); Recorded(q1.calls, q1.log, q1.succeeded)
  {
    SlotRecords(Settle(q, call, ok));
    hide ReleaseSlot;
  }

  lemma RequestRecords(q: Queue, r: Room)
    requires Recorded(q.calls, q.log, q.succeeded)
    ensures var q1 := RequestStep(q, r); Recorded(q1.calls, q1.log, q1.succeeded)
  {
    var q1 := RequestStep(q, r);
    assert q1.calls == q.calls && q1.log == q.log + [Requested(r)] && q1.succeeded == q.succeeded by {
      hide HasCall, Recorded;
    }
    hide RequestStep;
  }

  lemma RecordedStep(q: Queue, e: Event)
    requires Recorded(q.calls, q.log, q.succeeded)
    ensures var q1 := Apply(q, e); Recorded(q1.calls, q1.log, q1.succeeded)
  {
    hide Recorded, RequestStep, ResumeStep, ReleaseSlot;
    match e {
      case Request(r) => RequestRecords(q, r);
      case Resume(r) => ResumeRecords(q, r);
      case CallAnswers(call, ok) => if call in q.calls { AnswerRecords(q, call, ok); }
      case _ =>
    }
  }

  lemma {:induction false} RecordedRun(q: Queue, es: seq<Event>)
    requires Recorded(q.calls, q.log, q.succeeded)
    ensures var q1 := Run(q, es); Recorded(q1.calls, q1.log, q1.succeeded)
    decreases |es|
  {
    if es != [] {
      RecordedStep(q, es[0]);
      hide Apply, Recorded;
      RecordedRun(Apply(q, es[0]), es[1..]);
    }
  }

  /** Without a stop, a room with no record has had a successful publish start after its latest request. */
  lemma ResyncIsAtLeastOnce(q0: Queue, es: seq<Event>, p: nat)
    requires Initial(q0)
    ensures var q := Run(q0, es);
            !q.stopped && p < |q.log| && q.log[p].Requested? && q.log[p].room !in q.records ==>
              var r := q.log[p].room;
              r in q.succeeded && p < q.succeeded[r] < |q.log| && q.log[q.succeeded[r]] == Started(r)
  {
    RecordedRun(q0, es);
    InvAtStart(q0);
    InvRun(q0, es);
    var q := Run(q0, es);
    hide Run;
    if !q.stopped && p < |q.log| && q.log[p].Requested? && q.log[p].room !in q.records {
      var r := q.log[p].room;
      assert Covered(q.log, q.succeeded, r);
      assert q.log[p] == Requested(r);
    }
  }

  // ---- What one step does, and that a loop goes on ----

  /** The room's own record aside, nobody's is touched. */
  predicate OthersAsBefore(q: Queue, q': Queue, r: Room) {
    q'.records - {r} == q.records - {r}
  }

  /** Where a loop stands that is about to publish: behind its own call, on a slot, or last in line. */
  predicate AboutToPublish(q: Queue, q': Queue, r: Room) {
    && r in q'.records && q'.calls == q.calls
    && if exists c <- q.calls :: c.room == r then
         q'.records[r].phase == AwaitingCall && q'.slotWaiters == q.slotWaiters && q'.activePublishes == q.activePublishes
       else if q.activePublishes < q.maxPublishes then
         q'.records[r].phase == Granted && q'.slotWaiters == q.slotWaiters && q'.activePublishes == q.activePublishes + 1
       else
         q'.records[r].phase == Waiting && q'.slotWaiters == q.slotWaiters + [r] && q'.activePublishes == q.activePublishes
  }

  /** Before a stop a resumed loop always goes on: from a backoff, from an answered call or from a round that is still
      owed it is about to publish; a failed attempt backs off; a slot in hand becomes a publish after it, and after
      nothing else; and the record goes only once a publish succeeded and nothing more is owed. */
  lemma LoopGoesOn(q: Queue, r: Room)
    requires Inv(q) && !q.stopped && r in q.records
    ensures var q' := Apply(q, Resume(r)); var rec := q.records[r];
            && OthersAsBefore(q, q', r) && !q'.stopped && q'.succeeded == q.succeeded
            && (rec.phase.BackingOff? || rec.phase.AwaitingCall? ==> AboutToPublish(q, q', r) && q'.records[r].pending == rec.pending)
            && (rec.phase == Settled(true) && rec.pending ==> AboutToPublish(q, q', r) && !q'.records[r].pending)
            && (rec.phase == Settled(false) ==> q' == q.(records := q'.records) && q'.records[r] == Record(rec.pending, BackingOff))
            && (rec.phase.Handed? ==> q' == q.(records := q'.records) && q'.records[r] == Record(rec.pending, Granted))
            && (rec.phase.Granted? ==> r in q'.records && q'.records[r] == Record(rec.pending, Publishing(|q.log|))
                                       && q'.calls == q.calls + {Call(r, |q.log|)} && q'.slotWaiters == q.slotWaiters)
            && (rec.phase.Waiting? || rec.phase.Publishing? ==> q' == q)
            && (r !in q'.records <==> rec == Record(false, Settled(true)))
            && q'.log == if rec.phase.Granted? then q.log + [Started(r)] else q.log
  {
    hide SlotsInv, CallsInv, OwedInv, DoneInv;
  }

  /** After a stop a resumed loop ends, giving back a slot that was handed to it, unless it was already granted its
      slot or its publish has not settled. */
  lemma LoopEndsAfterStop(q: Queue, r: Room)
    requires Inv(q) && q.stopped && r in q.records
    ensures var q' := Apply(q, Resume(r)); var phase := q.records[r].phase;
            && OthersAsBefore(q, q', r)
            && (r !in q'.records <==> !phase.Granted? && !phase.Publishing?)
            && q'.activePublishes == q.activePublishes - if phase.Handed? then 1 else 0
  {
    hide SlotsInv, CallsInv, OwedInv, DoneInv;
  }

  /** A request is logged. A record owes one more publish from then on and is otherwise left alone; a room without one
      is about to publish, or gets none once the queue stopped. */
  lemma RequestIsOwed(q: Queue, r: Room)
    requires Inv(q)
    ensures var q' := Apply(q, Request(r));
            && OthersAsBefore(q, q', r) && q'.log == q.log + [Requested(r)]
            && (r in q.records ==> q' == q.(records := q'.records, log := q'.log) && r in q'.records
                                   && q'.records[r] == Record(true, q.records[r].phase))
            && (r !in q.records && !q.stopped ==> AboutToPublish(q, q', r) && !q'.records[r].pending)
            && (r !in q.records && q.stopped ==> r !in q'.records)
  {
    hide SlotsInv, CallsInv, OwedInv, DoneInv;
  }

  lemma SettlesOnlyItsAttempt(q: Queue, c: Call, ok: bool)
    ensures var q1 := Settle(q, c, ok);
            && q1 == q.(calls := q.calls - {c}, records := q1.records, succeeded := if ok then q.succeeded[c.room := c.startedAt] else q.succeeded)
            && q1.records.Keys == q.records.Keys
            && forall r <- q.records ::
                 q1.records[r] == if r == c.room && q.records[r].phase == Publishing(c.startedAt)
                                  then Record(q.records[r].pending, Settled(ok)) else q.records[r]
  {
  }

  lemma SlotGoesToTheFirst(q: Queue)
    requires q.slotWaiters != [] ==> q.slotWaiters[0] in q.records
    ensures var q1 := ReleaseSlot(q);
            && q1 == q.(records := q1.records, slotWaiters := q1.slotWaiters, activePublishes := q1.activePublishes)
            && q1.records.Keys == q.records.Keys
            && (if q.slotWaiters == [] then q1.activePublishes == q.activePublishes - 1 && q1.slotWaiters == []
                else q1.activePublishes == q.activePublishes && q.slotWaiters == [q.slotWaiters[0]] + q1.slotWaiters)
            && forall r <- q.records ::
                 q1.records[r] == if q.slotWaiters != [] && r == q.slotWaiters[0]
                                  then Record(q.records[r].pending, Handed) else q.records[r]
  {
  }

  /** An answer is recorded where it was a success, settles the attempt that waits for it and no other, and passes
      its slot to the first in line, or frees it. */
  lemma AnswerFreesASlot(q: Queue, c: Call, ok: bool)
    requires Inv(q) && c in q.calls
    ensures var q' := Apply(q, CallAnswers(c, ok));
            && q'.calls == q.calls - {c} && q'.log == q.log && q'.stopped == q.stopped && q'.records.Keys == q.records.Keys
            && q'.succeeded == (if ok then q.succeeded[c.room := c.startedAt] else q.succeeded)
            && (if q.slotWaiters == [] then q'.activePublishes == q.activePublishes - 1 && q'.slotWaiters == []
                else q'.activePublishes == q.activePublishes && q.slotWaiters == [q.slotWaiters[0]] + q'.slotWaiters)
            && forall r <- q.records ::
                 q'.records[r] ==
                   if r == c.room && q.records[r].phase == Publishing(c.startedAt) then Record(q.records[r].pending, Settled(ok))
                   else if q.slotWaiters != [] && r == q.slotWaiters[0] then Record(q.records[r].pending, Handed)
                   else q.records[r]
  {
    SettlesOnlyItsAttempt(q, c, ok);
    hide Settle, ReleaseSlot, SlotsInv, CallsInv, OwedInv, DoneInv;
    SlotGoesToTheFirst(Settle(q, c, ok));
  }

  /** Giving up on an attempt fails it and leaves its call out; a stop turns exactly the waiting rooms away. */
  lemma GivingUpAndStopping(q: Queue, r: Room)
    requires Inv(q)
    ensures var q' := Apply(q, TimeOut(r));
            && OthersAsBefore(q, q', r) && q' == q.(records := q'.records)
            && (r in q'.records <==> r in q.records)
            && (r in q.records ==>
                  q'.records[r] == if q.records[r].phase.Publishing? then Record(q.records[r].pending, Settled(false)) else q.records[r])
    ensures var q' := Apply(q, StopRetrying);
            && q' == q.(records := q'.records, stopped := true, slotWaiters := []) && q'.records.Keys == q.records.Keys
            && (r in q.records ==>
                  q'.records[r] == if q.records[r].phase.Waiting? then Record(q.records[r].pending, Refused) else q.records[r])
  {
    hide SlotsInv, CallsInv, OwedInv, DoneInv;
  }

  // ---- Every loop gets to publish again ----

  /** The next thing that has to happen to the room: its loop runs on, its attempt ends, its call answers, or, while
      it stands in line, anybody's call answers. */
  predicate Moves(q: Queue, e: Event, r: Room)
    requires r in q.records
  {
    match q.records[r].phase
    case AwaitingCall =>
      if HasCall(q.calls, r) then e.CallAnswers? && e.call in q.calls && e.call.room == r else e == Resume(r)
    case Waiting => e.CallAnswers? && e.call in q.calls
    case Publishing(_) => e == TimeOut(r) || (e.CallAnswers? && e.call in q.calls && e.call.room == r)
    case _ => e == Resume(r)
  }

  function Place(line: seq<Room>, r: Room): nat {
    if line == [] || line[0] == r then 0 else 1 + Place(line[1..], r)
  }

  lemma {:induction false} PlaceInLine(line: seq<Room>, r: Room, x: Room)
    ensures Place(line, r) <= |line| && (r in line ==> Place(line, r) < |line|)
    ensures r in line ==> Place(line + [x], r) == Place(line, r)
    ensures r !in line ==> Place(line + [r], r) == |line|
  {
    if line != [] {
      PlaceInLine(line[1..], r, x);
      assert (line + [x])[1..] == line[1..] + [x] && (line + [r])[1..] == line[1..] + [r];
    } else {
      assert ([r] + [])[0] == r;
    }
  }

  /** How many of its moves a room is away from its next publish, with at most `line` rooms in line. */
  function Distance(q: Queue, r: Room, line: nat): nat
    requires r in q.records
  {
    match q.records[r].phase
    case Granted => 1
    case Handed => 2
    case Waiting => 3 + Place(q.slotWaiters, r)
    case AwaitingCall => if HasCall(q.calls, r) then line + 4 else line + 3
    case BackingOff => line + 5
    case Settled(_) => line + 6
    case Refused => line + 6
    case Publishing(_) => line + 7
  }

  /** One step of anybody: the room starts its publish, or its record goes, or it is no further away than before,
      and nearer where the step was its move. */
  predicate Nears(q: Queue, e: Event, q': Queue, r: Room, line: nat)
    requires r in q.records
  {
    || q'.log == q.log + [Started(r)]
    || r !in q'.records
    || Distance(q', r, line) + (if Moves(q, e, r) then 1 else 0) <= Distance(q, r, line)
  }

  lemma OwnStepNears(q: Queue, r: Room, line: nat)
    requires Inv(q) && !q.stopped && r in q.records && |Apply(q, Resume(r)).slotWaiters| <= line
    ensures Nears(q, Resume(r), Apply(q, Resume(r)), r, line)
  {
    LoopGoesOn(q, r);
    PlaceInLine(q.slotWaiters, r, r);
    hide Apply, SlotsInv, CallsInv, OwedInv, DoneInv;
  }

  /** Records, line and calls changed by another room's step. */
  lemma StrangerNears(q: Queue, e: Event, q': Queue, r: Room, line: nat)
    requires Inv(q) && r in q.records && r in q'.records && q'.records[r].phase == q.records[r].phase
    requires q'.slotWaiters == q.slotWaiters || exists x :: q'.slotWaiters == q.slotWaiters + [x]
    requires HasCall(q'.calls, r) == HasCall(q.calls, r)
    requires !Moves(q, e, r)
    ensures Nears(q, e, q', r, line)
  {
    hide SlotsInv, CallsInv, OwedInv, DoneInv, HasCall;
    if x :| q'.slotWaiters == q.slotWaiters + [x] {
      PlaceInLine(q.slotWaiters, r, x);
    }
  }

  lemma OtherLoopNears(q: Queue, x: Room, r: Room, line: nat)
    requires Inv(q) && !q.stopped && r in q.records && x != r
    ensures Nears(q, Resume(x), Apply(q, Resume(x)), r, line)
  {
    if x in q.records {
      LoopGoesOn(q, x);
    }
    hide Apply, Nears, SlotsInv, CallsInv, OwedInv, DoneInv;
    StrangerNears(q, Resume(x), Apply(q, Resume(x)), r, line);
  }

  lemma RequestNears(q: Queue, x: Room, r: Room, line: nat)
    requires Inv(q) && !q.stopped && r in q.records
    ensures Nears(q, Request(x), Apply(q, Request(x)), r, line)
  {
    RequestIsOwed(q, x);
    hide Apply, Nears, SlotsInv, CallsInv, OwedInv, DoneInv;
    StrangerNears(q, Request(x), Apply(q, Request(x)), r, line);
  }

  lemma CallsLeft(q: Queue, c: Call, r: Room)
    requires Inv(q) && c in q.calls
    ensures HasCall(q.calls - {c}, r) <==> HasCall(q.calls, r) && c.room != r
  {
    hide SlotsInv, LineInv, OwedInv, DoneInv;
    if HasCall(q.calls, r) && c.room != r {
      var d :| d in q.calls && d.room == r;
      assert d in q.calls - {c};
    }
  }

  lemma PlacesInLine(q: Queue, r: Room)
    requires Inv(q) && r in q.records
    ensures r in q.slotWaiters <==> q.records[r].phase.Waiting?
    ensures forall c <- q.calls :: c.room == r && q.records[r].phase.Publishing? ==> c.startedAt == q.records[r].phase.startedAt
  {
    hide SlotsInv, OwedInv, DoneInv;
  }

  lemma AnswerNears(q: Queue, c: Call, ok: bool, r: Room, line: nat)
    requires Inv(q) && !q.stopped && r in q.records
    ensures Nears(q, CallAnswers(c, ok), Apply(q, CallAnswers(c, ok)), r, line)
  {
    if c in q.calls {
      AnswerFreesASlot(q, c, ok);
      CallsLeft(q, c, r);
      PlacesInLine(q, r);
      hide Apply, HasCall, Inv;
      var q' := Apply(q, CallAnswers(c, ok));
      assert q.slotWaiters != [] ==> q.slotWaiters[1..] == q'.slotWaiters;
    }
  }

  lemma TimeOutNears(q: Queue, x: Room, r: Room, line: nat)
    requires Inv(q) && !q.stopped && r in q.records
    ensures Nears(q, TimeOut(x), Apply(q, TimeOut(x)), r, line)
  {
    GivingUpAndStopping(q, x);
    hide Apply, SlotsInv, CallsInv, OwedInv, DoneInv;
  }

  lemma EveryStepNears(q: Queue, e: Event, r: Room, line: nat)
    requires Inv(q) && r in q.records && !Apply(q, e).stopped && |Apply(q, e).slotWaiters| <= line
    ensures Nears(q, e, Apply(q, e), r, line)
    ensures !q.stopped
  {
    StopIsFinal(q, e);
    match e {
      case Request(x) => RequestNears(q, x, r, line);
      case Resume(x) => if x == r { OwnStepNears(q, r, line); } else { OtherLoopNears(q, x, r, line); }
      case CallAnswers(c, ok) => AnswerNears(q, c, ok, r, line);
      case TimeOut(x) => TimeOutNears(q, x, r, line);
      case StopRetrying =>
    }
    hide Inv, Nears;
  }

  lemma StopIsFinal(q: Queue, e: Event)
    ensures q.stopped ==> Apply(q, e).stopped
    ensures e.StopRetrying? ==> Apply(q, e).stopped
  {
    hide HasCall;
  }

  lemma LeavesOnlyDone(q: Queue, e: Event, r: Room)
    requires Inv(q) && r in q.records && !Apply(q, e).stopped
    ensures r in Apply(q, e).records || q.records[r] == Record(false, Settled(true))
  {
    StopIsFinal(q, e);
    match e {
      case Request(x) => RequestIsOwed(q, x); assert r in q.records - {x} || r == x;
      case Resume(x) => if x in q.records { LoopGoesOn(q, x); } assert r in q.records - {x} || r == x;
      case CallAnswers(c, ok) => if c in q.calls { AnswerFreesASlot(q, c, ok); }
      case TimeOut(x) => GivingUpAndStopping(q, x); assert r in q.records - {x} || r == x;
      case StopRetrying =>
    }
    hide Inv, RequestStep, Settle, ReleaseSlot, BeginAttempt, LoopHead, AcquireSlot, StartPublish;
  }

  predicate RequestsWithin(es: seq<Event>, rooms: set<Room>) {
    forall e <- es :: e.Request? ==> e.room in rooms
  }

  lemma RecordsStayWithin(q: Queue, e: Event, rooms: set<Room>)
    requires q.records.Keys <= rooms && (e.Request? ==> e.room in rooms)
    ensures Apply(q, e).records.Keys <= rooms
  {
    hide HasCall;
  }

  lemma {:induction false} RecordsStayWithinRun(q: Queue, es: seq<Event>, rooms: set<Room>)
    requires q.records.Keys <= rooms && RequestsWithin(es, rooms)
    ensures Run(q, es).records.Keys <= rooms
    decreases |es|
  {
    if es != [] {
      assert es[0] in es;
      RecordsStayWithin(q, es[0], rooms);
      hide Apply;
      RecordsStayWithinRun(Apply(q, es[0]), es[1..], rooms);
    }
  }

  lemma {:induction false} NoRepetition(line: seq<Room>, rooms: set<Room>)
    requires forall i | 0 <= i < |line| :: line[i] in rooms
    requires forall i, j | 0 <= i < j < |line| :: line[i] != line[j]
    ensures |line| <= |rooms|
  {
    if line != [] {
      assert forall i | 0 <= i < |line[1..]| :: line[1..][i] == line[i + 1];
      NoRepetition(line[1..], rooms - {line[0]});
    }
  }

  lemma LineFits(q: Queue, rooms: set<Room>)
    requires Inv(q) && q.records.Keys <= rooms
    ensures |q.slotWaiters| <= |rooms|
  {
    hide SlotsInv, CallsInv, OwedInv, DoneInv;
    NoRepetition(q.slotWaiters, rooms);
  }

  /** How many of the room's moves a run makes while its record is there. */
  function MovesMade(q: Queue, es: seq<Event>, r: Room): nat
    decreases |es|
  {
    if es == [] then 0
    else (if r in q.records && Moves(q, es[0], r) then 1 else 0) + MovesMade(Apply(q, es[0]), es[1..], r)
  }

  /** The step starts a publish of the room, or ends its loop after a success with nothing more owed. */
  predicate Serves(q: Queue, e: Event, r: Room) {
    || Apply(q, e).log == q.log + [Started(r)]
    || (r in q.records && q.records[r] == Record(false, Settled(true)) && r !in Apply(q, e).records)
  }

  predicate ServedDuring(q: Queue, es: seq<Event>, r: Room) {
    exists k | 0 <= k < |es| :: Serves(Run(q, es[..k]), es[k], r)
  }

  lemma ServedFirst(q: Queue, es: seq<Event>, r: Room)
    requires es != [] && Serves(q, es[0], r)
    ensures ServedDuring(q, es, r)
  {
    hide Apply, Serves;
    assert es[..0] == [] && Run(q, es[..0]) == q;
  }

  lemma ServedLater(q: Queue, es: seq<Event>, r: Room)
    requires es != [] && ServedDuring(Apply(q, es[0]), es[1..], r)
    ensures ServedDuring(q, es, r)
  {
    hide Apply, Serves;
    var k :| 0 <= k < |es[1..]| && Serves(Run(Apply(q, es[0]), es[1..][..k]), es[1..][k], r);
    assert es[..k + 1][1..] == es[1..][..k];
    assert Run(q, es[..k + 1]) == Run(Apply(q, es[0]), es[1..][..k]);
    assert Serves(Run(q, es[..k + 1]), es[k + 1], r);
  }

  lemma {:induction false} StoppedStays(q: Queue, es: seq<Event>)
    requires q.stopped
    ensures Run(q, es).stopped
    decreases |es|
  {
    if es != [] {
      StopIsFinal(q, es[0]);
      hide Apply;
      StoppedStays(Apply(q, es[0]), es[1..]);
    }
  }

  lemma {:induction false} MovesRunOut(q: Queue, es: seq<Event>, r: Room, rooms: set<Room>)
    requires Inv(q) && r in q.records && !Run(q, es).stopped
    requires q.records.Keys <= rooms && RequestsWithin(es, rooms)
    ensures ServedDuring(q, es, r) || MovesMade(q, es, r) < Distance(q, r, |rooms|)
    decreases |es|
  {
    if es != [] {
      var q' := Apply(q, es[0]);
      assert es[0] in es;
      RecordsStayWithin(q, es[0], rooms);
      InvStep(q, es[0]);
      LineFits(q', rooms);
      if q'.stopped { StoppedStays(q', es[1..]); }
      EveryStepNears(q, es[0], r, |rooms|);
      if r !in q'.records { LeavesOnlyDone(q, es[0], r); }
      if Serves(q, es[0], r) {
        ServedFirst(q, es, r);
      } else {
        assert Distance(q', r, |rooms|) + (if Moves(q, es[0], r) then 1 else 0) <= Distance(q, r, |rooms|);
        hide Apply, Inv, Serves, Moves, Distance, ServedDuring;
        MovesRunOut(q', es[1..], r, rooms);
        if ServedDuring(q', es[1..], r) { ServedLater(q, es, r); }
      }
      hide Apply, Inv, Serves, Moves, Distance, ServedDuring;
    }
  }

  /** From any reachable state without a stop, whatever all the rooms do meanwhile: once seven of a room's moves have
      been made, and one more for every room there is, that room has started another publish, or its loop has ended
      after a success with nothing more owed. No loop stops for ever with its record in place. */
  lemma EveryLoopPublishesAgain(q0: Queue, es: seq<Event>, more: seq<Event>, r: Room, rooms: set<Room>)
    requires Initial(q0) && RequestsWithin(es, rooms) && RequestsWithin(more, rooms)
    requires var q := Run(q0, es);
             r in q.records && !Run(q, more).stopped && MovesMade(q, more, r) >= |rooms| + 7
    ensures ServedDuring(Run(q0, es), more, r)
  {
    hide Run, ServedDuring, MovesMade;
    InvAtStart(q0);
    InvRun(q0, es);
    RecordsStayWithinRun(q0, es, rooms);
    var q := Run(q0, es);
    MovesRunOut(q, more, r, rooms);
    LineFits(q, rooms);
    PlaceInLine(q.slotWaiters, r, r);
    hide SlotsInv, CallsInv, OwedInv, DoneInv;
    assert r in q.slotWaiters <==> q.records[r].phase.Waiting?;
    assert !q.stopped by { if q.stopped { StoppedStays(q, more); } }
  }

  /** Nobody is stuck: in every reachable state without a stop each room has a move to make, except that a room in
      line may first have to see a room that holds a slot publish, and that room has its own move. */
  lemma EverybodyCanMove(q0: Queue, es: seq<Event>, r: Room)
    requires Initial(q0)
    ensures var q := Run(q0, es);
            !q.stopped && r in q.records ==>
              || (exists e :: Moves(q, e, r))
              || (q.records[r].phase.Waiting? && exists h <- q.records :: HoldsSlot(q.records[h].phase) && Moves(q, Resume(h), h))
  {
    InvAtStart(q0);
    InvRun(q0, es);
    CapIsFixed(q0, es);
    var q := Run(q0, es);
    hide Run;
    if !q.stopped && r in q.records {
      match q.records[r].phase {
        case AwaitingCall =>
          if HasCall(q.calls, r) {
            var c :| c in q.calls && c.room == r;
            assert Moves(q, CallAnswers(c, true), r);
          } else {
            assert Moves(q, Resume(r), r);
          }
        case Waiting => WaitersHaveHolders(q, r);
        case Publishing(_) => assert Moves(q, TimeOut(r), r);
        case Refused =>
        case _ => assert Moves(q, Resume(r), r);
      }
    }
  }

  lemma {:induction false} CapIsFixed(q: Queue, es: seq<Event>)
    ensures Run(q, es).maxPublishes == q.maxPublishes
    decreases |es|
  {
    if es != [] {
      assert Apply(q, es[0]).maxPublishes == q.maxPublishes by { hide HasCall; }
      hide Apply;
      CapIsFixed(Apply(q, es[0]), es[1..]);
    }
  }

  lemma WaitersHaveHolders(q: Queue, r: Room)
    requires Inv(q) && q.maxPublishes >= 1 && r in q.records && q.records[r].phase.Waiting?
    ensures (exists e :: Moves(q, e, r)) || exists h <- q.records :: HoldsSlot(q.records[h].phase) && Moves(q, Resume(h), h)
  {
    hide CallsInv, OwedInv, DoneInv;
    assert q.slotWaiters != [];
    if q.calls != {} {
      var c :| c in q.calls;
      assert Moves(q, CallAnswers(c, true), r);
    } else {
      assert Holders(q.records) != {};
      var h :| h in Holders(q.records);
      assert Moves(q, Resume(h), h);
    }
  }

  function Starts(log: seq<Happening>): set<nat> {
    set p: nat | p < |log| && log[p].Started?
  }

  function GrantedRooms(records: map<Room, Record>): set<Room> {
    set r | r in records && records[r].phase.Granted?
  }

  lemma Subsets<T>(a: set<T>, b: set<T>)
    requires a <= b
    ensures |a| <= |b|
  {
    assert a + (b - a) == b;
  }

  /** Once stopped, a loop that was not granted a slot only ends. */
  lemma StoppedLoopEnds(q: Queue, r: Room)
    requires q.stopped && q.slotWaiters == [] && !(r in q.records && q.records[r].phase.Granted?)
    ensures var q' := ResumeStep(q, r);
            q'.stopped && q'.log == q.log && forall x <- q'.records :: x in q.records && q'.records[x] == q.records[x]
  {
    hide HasCall;
  }

  /** What may happen from one stopped state to a later one: nobody is granted a slot, and whoever starts a publish
      held one before, holds it no longer, and starts no second. */
  predicate WindsDown(q: Queue, t: Queue) {
    && t.stopped
    && |q.log| <= |t.log| && t.log[..|q.log|] == q.log
    && GrantedRooms(t.records) <= GrantedRooms(q.records)
    && (forall p | |q.log| <= p < |t.log| :: t.log[p].Started? ==> t.log[p].room in GrantedRooms(q.records) - GrantedRooms(t.records))
    && (forall p, r | |q.log| <= p < r < |t.log| :: t.log[p].Started? && t.log[r].Started? ==> t.log[p].room != t.log[r].room)
  }

  /** A step that starts nothing and grants nothing. */
  lemma QuietWindsDown(q: Queue, t: Queue)
    requires t.stopped && (t.log == q.log || exists r :: t.log == q.log + [Requested(r)])
    requires forall r <- t.records :: t.records[r].phase.Granted? ==> r in q.records && q.records[r].phase.Granted?
    ensures WindsDown(q, t)
  {
  }

  lemma ResumeWindsDown(q: Queue, r: Room)
    requires Inv(q) && q.stopped
    ensures WindsDown(q, ResumeStep(q, r))
  {
    var t := ResumeStep(q, r);
    if r in q.records && q.records[r].phase.Granted? {
      assert t.log == q.log + [Started(r)];
      assert GrantedRooms(t.records) == GrantedRooms(q.records) - {r};
      hide ResumeStep, GrantedRooms, Inv;
    } else {
      StoppedLoopEnds(q, r);
      QuietWindsDown(q, t);
      hide ResumeStep, WindsDown, Inv;
    }
  }

  lemma WindsDownStep(q: Queue, e: Event)
    requires Inv(q) && q.stopped
    ensures WindsDown(q, Apply(q, e))
  {
    hide ResumeStep, WindsDown, CallsInv, OwedInv, DoneInv, SlotsInv;
    match e {
      case Resume(r) => ResumeWindsDown(q, r);
      case Request(r) =>
        assert RequestStep(q, r).log == q.log + [Requested(r)];
        QuietWindsDown(q, Apply(q, e));
      case _ => QuietWindsDown(q, Apply(q, e));
    }
  }

  lemma WindsDownTrans(q: Queue, s: Queue, t: Queue)
    requires WindsDown(q, s) && WindsDown(s, t)
    ensures WindsDown(q, t)
  {
    hide GrantedRooms;
    forall p | |q.log| <= p < |t.log| && t.log[p].Started?
      ensures t.log[p].room in GrantedRooms(q.records) - GrantedRooms(t.records)
      ensures p < |s.log| ==> s.log[p] == t.log[p] && t.log[p].room !in GrantedRooms(s.records)
      ensures p >= |s.log| ==> t.log[p].room in GrantedRooms(s.records)
    {
      if p < |s.log| {
        assert t.log[..|s.log|][p] == s.log[p];
      }
    }
    forall p, r | |q.log| <= p < r < |t.log| && t.log[p].Started? && t.log[r].Started?
      ensures t.log[p].room != t.log[r].room
    {
    }
    assert t.log[..|q.log|] == t.log[..|s.log|][..|q.log|];
  }

  lemma {:induction false} WindsDownRun(q: Queue, es: seq<Event>)
    requires Inv(q) && q.stopped
    ensures WindsDown(q, Run(q, es))
    decreases |es|
  {
    if es == [] {
      QuietWindsDown(q, q);
    } else {
      WindsDownStep(q, es[0]);
      InvStep(q, es[0]);
      assert Apply(q, es[0]).stopped;
      hide Inv, Apply, WindsDown;
      WindsDownRun(Apply(q, es[0]), es[1..]);
      WindsDownTrans(q, Apply(q, es[0]), Run(q, es));
    }
  }

  /** Positions that start publishes of different rooms are no more than those rooms. */
  lemma {:induction false} OneStartEach(log: seq<Happening>, starts: set<nat>, rooms: set<Room>)
    requires forall p <- starts :: p < |log| && log[p].room in rooms
    requires forall p <- starts, r <- starts :: log[p].room == log[r].room ==> p == r
    ensures |starts| <= |rooms|
    decreases |starts|
  {
    if starts != {} {
      var p :| p in starts;
      OneStartEach(log, starts - {p}, rooms - {log[p].room});
    }
  }

  /** Once stopped, no room is granted a slot any more. The only publishes that still start are of rooms that held
      one when the switch fired, each at most once and giving up its grant: at most `maxPublishes` in all. */
  lemma StopGrantsNobody(q0: Queue, es: seq<Event>, more: seq<Event>)
    requires Initial(q0) && Run(q0, es).stopped
    ensures var q := Run(q0, es); var t := Run(q, more);
            && (forall r <- t.records :: t.records[r].phase.Granted? ==> r in q.records && q.records[r].phase.Granted?)
            && (forall p | |q.log| <= p < |t.log| :: t.log[p].Started? ==>
                  t.log[p].room in GrantedRooms(q.records) && t.log[p].room !in GrantedRooms(t.records))
            && (forall p, r | |q.log| <= p < r < |t.log| :: t.log[p].Started? && t.log[r].Started? ==> t.log[p].room != t.log[r].room)
            && |Starts(t.log) - Starts(q.log)| <= |GrantedRooms(q.records)| <= q.maxPublishes
  {
    hide Run;
    InvAtStart(q0);
    InvRun(q0, es);
    var q := Run(q0, es);
    WindsDownRun(q, more);
    var t := Run(q, more);
    assert GrantedRooms(q.records) <= Holders(q.records);
    Subsets(GrantedRooms(q.records), Holders(q.records));
    hide Inv;
    var news := Starts(t.log) - Starts(q.log);
    forall p | 0 <= p < |q.log|
      ensures t.log[p] == q.log[p]
    {
      assert t.log[..|q.log|][p] == q.log[p];
    }
    assert forall r <- t.records :: t.records[r].phase.Granted? ==> r in GrantedRooms(t.records);
    OneStartEach(t.log, news, GrantedRooms(q.records));
  }
}
