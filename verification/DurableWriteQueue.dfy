/**
 The queue of shared writes behind the runtime store, one chain per key, as a machine of single steps.

 Every `await` of a write ends a step: a timeout ends the attempt but not its command, a command may answer at any
 later step, a newer write for the same key supersedes retries, and the stop switch can fire
 between any two steps.
 */
module DurableWriteQueue {
  import opened Options

  type Key = string
  /** Writes are numbered in the order they were enqueued. */
  type Id = nat
  type ConfirmId = nat

  const MAX_REMEMBERED_FAILURES := 64

  datatype Outcome = Landed | Failed(retryable: bool) | Superseded | Dropped

  datatype Phase =
    | Waiting                 // behind the previous write of its key
    | Admitted                // its turn, no attempt yet
    | Attempting(n: nat)      // attempt n is being waited for
    | BackingOff(n: nat)      // attempt n failed, the delay runs
    | Settling(n: nat)        // the delay is over, commands of earlier attempts may still be out
    | Answered(outcome: Outcome)

  datatype Write = Write(
    key: Key,
    previous: Option<Id>,
    superseded: bool,
    phase: Phase,
    attempts: nat,
    out: set<nat>,            // attempts whose command has not answered
    released: bool            // the key was handed on
  )

  datatype Attempt = Attempt(id: Id, n: nat)

  datatype Queue = Queue(
    maxAttempts: nat,
    writes: seq<Write>,
    chains: map<Key, Id>,
    stopped: bool,
    abandoned: seq<Id>,
    confirms: map<ConfirmId, set<Id>>,  // outstanding confirms, each with the writes it waits for
    starts: seq<Attempt>                // every command start, in order
  )

  datatype Reply = Ok | Error | NonRetryable

  datatype Event =
    | Enqueue(key: Key)
    | PassGate(id: Id)
    | Begin(id: Id)
    | CommandAnswers(id: Id, n: nat, reply: Reply)
    | TimeOut(id: Id)
    | Wake(id: Id)
    | Resume(id: Id)
    | Release(id: Id)
    | StopRetrying
    | CallConfirm(confirm: ConfirmId)
    | ReturnConfirm(confirm: ConfirmId)

  function Put(q: Queue, i: Id, w: Write): Queue
    requires i < |q.writes|
  {
    q.(writes := q.writes[i := w])
  }

  /** Only failures and drops are kept for a confirm; supersession is left out, and so is whatever exceeds the cap. */
  function Remember(abandoned: seq<Id>, i: Id, outcome: Outcome): seq<Id> {
    if (outcome.Failed? || outcome.Dropped?) && |abandoned| < MAX_REMEMBERED_FAILURES then abandoned + [i] else abandoned
  }

  function AnswerCaller(q: Queue, i: Id, outcome: Outcome): Queue
    requires i < |q.writes|
  {
    Put(q, i, q.writes[i].(phase := Answered(outcome))).(abandoned := Remember(q.abandoned, i, outcome))
  }

  function StartAttempt(q: Queue, i: Id): Queue
    requires i < |q.writes|
  {
    var w := q.writes[i];
    var n := w.attempts + 1;
    Put(q, i, w.(phase := Attempting(n), attempts := n, out := w.out + {n})).(starts := q.starts + [Attempt(i, n)])
  }

  function AttemptFails(q: Queue, i: Id, n: nat, retryable: bool): Queue
    requires i < |q.writes|
  {
    if !retryable then AnswerCaller(q, i, Failed(false))
    else if n == q.maxAttempts || q.stopped then AnswerCaller(q, i, Failed(true))
    else if q.writes[i].superseded then AnswerCaller(q, i, Superseded)
    else Put(q, i, q.writes[i].(phase := BackingOff(n)))
  }

  predicate Free(q: Queue, i: Id)
    requires i < |q.writes|
  {
    var p := q.writes[i].previous;
    p.None? || (p.value < |q.writes| && q.writes[p.value].released)
  }

  function EnqueueStep(q: Queue, key: Key): Queue {
    var i := |q.writes|;
    var previous := if key in q.chains then Some(q.chains[key]) else None;
    var ws :=
      if previous.Some? && previous.value < i
      then q.writes[previous.value := q.writes[previous.value].(superseded := true)] else q.writes;
    q.(writes := ws + [Write(key, previous, false, Waiting, 0, {}, false)], chains := q.chains[key := i])
  }

  function PassGateStep(q: Queue, i: Id): Queue {
    if !(i < |q.writes| && q.writes[i].phase.Waiting?) then q
    else if q.stopped then AnswerCaller(q, i, Dropped)
    else if !Free(q, i) then q
    else Put(q, i, q.writes[i].(phase := Admitted))
  }

  function BeginStep(q: Queue, i: Id): Queue {
    if !(i < |q.writes| && q.writes[i].phase.Admitted?) then q
    else if q.stopped then AnswerCaller(q, i, Dropped)
    else StartAttempt(q, i)
  }

  function CommandAnswersStep(q: Queue, i: Id, n: nat, reply: Reply): Queue {
    if !(i < |q.writes| && n in q.writes[i].out) then q
    else
      var q1 := Put(q, i, q.writes[i].(out := q.writes[i].out - {n}));
      if q.writes[i].phase != Attempting(n) then q1
      else match reply
        case Ok => AnswerCaller(q1, i, Landed)
        case Error => AttemptFails(q1, i, n, true)
        case NonRetryable => AttemptFails(q1, i, n, false)
  }

  function TimeOutStep(q: Queue, i: Id): Queue {
    if !(i < |q.writes| && q.writes[i].phase.Attempting?) then q
    else AttemptFails(q, i, q.writes[i].phase.n, true)
  }

  function WakeStep(q: Queue, i: Id): Queue {
    if !(i < |q.writes| && q.writes[i].phase.BackingOff?) then q
    else Put(q, i, q.writes[i].(phase := Settling(q.writes[i].phase.n)))
  }

  function ResumeStep(q: Queue, i: Id): Queue {
    if !(i < |q.writes| && q.writes[i].phase.Settling? && (q.writes[i].out == {} || q.stopped)) then q
    else if q.writes[i].superseded then AnswerCaller(q, i, Superseded)
    else if q.stopped then AnswerCaller(q, i, Failed(true))
    else StartAttempt(q, i)
  }

  function ReleaseStep(q: Queue, i: Id): Queue {
    if !(i < |q.writes| && q.writes[i].phase.Answered? && !q.writes[i].released && q.writes[i].out == {} && Free(q, i)) then q
    else
      var q1 := Put(q, i, q.writes[i].(released := true));
      var key := q.writes[i].key;
      if key in q.chains && q.chains[key] == i then q1.(chains := q.chains - {key}) else q1
  }

  function Unreleased(ws: seq<Write>): set<Id> {
    set i: Id | i < |ws| && !ws[i].released
  }

  predicate AllAnswered(ws: seq<Write>, ids: set<Id>) {
    forall i <- ids :: i < |ws| && ws[i].phase.Answered?
  }

  predicate CanReturn(q: Queue, c: ConfirmId) {
    c in q.confirms && AllAnswered(q.writes, q.confirms[c])
  }

  /** The confirm resolves; where it can return but does not resolve, it rejects with the remembered failures. */
  predicate Resolves(q: Queue, c: ConfirmId) {
    CanReturn(q, c) && q.abandoned == []
  }

  function CallConfirmStep(q: Queue, c: ConfirmId): Queue {
    if c in q.confirms then q else q.(confirms := q.confirms[c := Unreleased(q.writes)])
  }

  function ReturnConfirmStep(q: Queue, c: ConfirmId): Queue {
    if !CanReturn(q, c) then q else q.(confirms := q.confirms - {c}, abandoned := [])
  }

  function Apply(q: Queue, e: Event): Queue {
    match e
    case Enqueue(key) => EnqueueStep(q, key)
    case PassGate(i) => PassGateStep(q, i)
    case Begin(i) => BeginStep(q, i)
    case CommandAnswers(i, n, reply) => CommandAnswersStep(q, i, n, reply)
    case TimeOut(i) => TimeOutStep(q, i)
    case Wake(i) => WakeStep(q, i)
    case Resume(i) => ResumeStep(q, i)
    case Release(i) => ReleaseStep(q, i)
    case StopRetrying => q.(stopped := true)
    case CallConfirm(c) => CallConfirmStep(q, c)
    case ReturnConfirm(c) => ReturnConfirmStep(q, c)
  }

  function Run(q: Queue, es: seq<Event>): Queue
    decreases |es|
  {
    if es == [] then q else Run(Apply(q, es[0]), es[1..])
  }

  predicate Initial(q: Queue) {
    && q.maxAttempts >= 1 && q.writes == [] && q.chains == map[] && !q.stopped
    && q.abandoned == [] && q.confirms == map[] && q.starts == []
  }

  /** The queue's mutable fields, changed in place between two awaits. */
  class WriteQueue {
    const maxAttempts: nat
    var writes: seq<Write>
    var chains: map<Key, Id>
    var stopped: bool
    var abandoned: seq<Id>
    var confirms: map<ConfirmId, set<Id>>
    ghost var starts: seq<Attempt>

    ghost function View(): Queue
      reads this
    {
      Queue(maxAttempts, writes, chains, stopped, abandoned, confirms, starts)
    }

    ghost predicate Valid()
      reads this
    {
      Inv(View())
    }

    constructor (attempts: int)
      ensures Initial(View()) && maxAttempts == if attempts < 1 then 1 else attempts
    {
      maxAttempts := if attempts < 1 then 1 else attempts;
      writes, chains, stopped, abandoned, confirms, starts := [], map[], false, [], map[], [];
    }

    method Enqueue(key: Key) returns (id: Id)
      requires Valid()
      modifies this
      ensures id == old(|writes|) && View() == EnqueueStep(old(View()), key) && Valid()
    {
      EnqueueKeeps(View(), key);
      id := |writes|;
      var previous := None;
      if key in chains {
        previous := Some(chains[key]);
        writes := writes[chains[key] := writes[chains[key]].(superseded := true)];
      }
      writes := writes + [Write(key, previous, false, Waiting, 0, {}, false)];
      chains := chains[key := id];
    }

    method Answer(i: Id, outcome: Outcome)
      requires i < |writes|
      modifies this
      ensures View() == AnswerCaller(old(View()), i, outcome)
    {
      writes := writes[i := writes[i].(phase := Answered(outcome))];
      if (outcome.Failed? || outcome.Dropped?) && |abandoned| < MAX_REMEMBERED_FAILURES {
        abandoned := abandoned + [i];
      }
    }

    method StartCommand(i: Id)
      requires i < |writes|
      modifies this
      ensures View() == StartAttempt(old(View()), i)
    {
      var n := writes[i].attempts + 1;
      writes := writes[i := writes[i].(phase := Attempting(n), attempts := n, out := writes[i].out + {n})];
      starts := starts + [Attempt(i, n)];
    }

    /** Between the gate and the first attempt the stop switch is read twice. */
    method AfterGate(i: Id)
      requires Valid() && i < |writes| && writes[i].phase.Waiting? && (Free(View(), i) || stopped)
      modifies this
      ensures View() == PassGateStep(old(View()), i) && Valid()
    {
      PassGateKeeps(View(), i);
      if stopped {
        Answer(i, Dropped);
      } else {
        writes := writes[i := writes[i].(phase := Admitted)];
      }
    }

    method FirstAttempt(i: Id)
      requires Valid() && i < |writes| && writes[i].phase.Admitted?
      modifies this
      ensures View() == BeginStep(old(View()), i) && Valid()
    {
      BeginKeeps(View(), i);
      if stopped {
        Answer(i, Dropped);
      } else {
        StartCommand(i);
      }
    }

    method CatchError(i: Id, n: nat, retryable: bool)
      requires i < |writes|
      modifies this
      ensures View() == AttemptFails(old(View()), i, n, retryable)
    {
      if !retryable {
        Answer(i, Failed(false));
      } else if n == maxAttempts || stopped {
        Answer(i, Failed(true));
      } else if writes[i].superseded {
        Answer(i, Superseded);
      } else {
        writes := writes[i := writes[i].(phase := BackingOff(n))];
      }
    }

    method CommandAnswered(i: Id, n: nat, reply: Reply)
      requires Valid() && i < |writes| && n in writes[i].out
      modifies this
      ensures View() == CommandAnswersStep(old(View()), i, n, reply) && Valid()
      ensures i < |writes| && n !in writes[i].out
      ensures old(writes)[i].phase == Attempting(n) ==> (writes[i].phase == Answered(Landed) <==> reply == Ok)
      ensures old(writes)[i].phase != Attempting(n) ==> writes[i].phase == old(writes)[i].phase
    {
      CommandAnswersKeeps(View(), i, n, reply);
      LandsIff(View(), CommandAnswers(i, n, reply), i);
      hide Inv, AnswerCaller, AttemptFails;
      writes := writes[i := writes[i].(out := writes[i].out - {n})];
      if writes[i].phase == Attempting(n) {
        match reply {
          case Ok => Answer(i, Landed);
          case Error => CatchError(i, n, true);
          case NonRetryable => CatchError(i, n, false);
        }
      }
    }

    method AttemptTimedOut(i: Id)
      requires Valid() && i < |writes| && writes[i].phase.Attempting?
      modifies this
      ensures View() == TimeOutStep(old(View()), i) && Valid()
    {
      TimeOutKeeps(View(), i);
      CatchError(i, writes[i].phase.n, true);
    }

    method BackoffOver(i: Id)
      requires Valid() && i < |writes| && writes[i].phase.BackingOff?
      modifies `writes
      ensures View() == WakeStep(old(View()), i) && Valid()
    {
      WakeKeeps(View(), i);
      writes := writes[i := writes[i].(phase := Settling(writes[i].phase.n))];
    }

    /** Once the delay is over and no command is out, or the switch is set. */
    method Retry(i: Id)
      requires Valid() && i < |writes| && writes[i].phase.Settling? && (writes[i].out == {} || stopped)
      modifies this
      ensures View() == ResumeStep(old(View()), i) && Valid()
    {
      ResumeKeeps(View(), i);
      if writes[i].superseded {
        Answer(i, Superseded);
      } else if stopped {
        Answer(i, Failed(true));
      } else {
        StartCommand(i);
      }
    }

    method ReleaseKey(i: Id)
      requires Valid() && i < |writes| && writes[i].phase.Answered? && !writes[i].released && writes[i].out == {} && Free(View(), i)
      modifies this
      ensures View() == ReleaseStep(old(View()), i) && Valid()
    {
      ReleaseKeeps(View(), i);
      var key := writes[i].key;
      writes := writes[i := writes[i].(released := true)];
      if key in chains && chains[key] == i {
        chains := chains - {key};
      }
    }

    method Outstanding() returns (waiting: set<Id>)
      ensures waiting == Unreleased(writes)
    {
      waiting := {};
      for i := 0 to |writes|
        invariant waiting == set j: Id | j < i && !writes[j].released
      {
        if !writes[i].released {
          waiting := waiting + {i};
        }
      }
    }

    method CallConfirm(c: ConfirmId)
      requires Valid() && c !in confirms
      modifies `confirms
      ensures View() == CallConfirmStep(old(View()), c) && Valid()
    {
      ConfirmKeeps(View(), c);
      hide Inv, Unreleased;
      var waiting := Outstanding();
      confirms := confirms[c := waiting];
    }

    /** Reading the remembered failures clears them. */
    method ReturnConfirm(c: ConfirmId) returns (failures: seq<Id>)
      requires Valid() && CanReturn(View(), c)
      modifies `confirms, `abandoned
      ensures failures == old(abandoned)
      ensures failures == [] <==> Resolves(old(View()), c)
      ensures View() == ReturnConfirmStep(old(View()), c) && Valid()
    {
      ConfirmKeeps(View(), c);
      hide Inv;
      failures := abandoned;
      abandoned := [];
      confirms := confirms - {c};
    }

    method Stop()
      requires Valid()
      modifies `stopped
      ensures View() == Apply(old(View()), StopRetrying) && Valid()
    {
      StopKeeps(View());
      hide Inv;
      stopped := true;
    }
  }

  // ---- What every step keeps ----

  predicate Begun(w: Write) {
    w.attempts > 0 || !(w.phase.Waiting? || w.phase.Answered?)
  }

  /** What holds of one write on its own. */
  predicate WriteInv(w: Write, maxAttempts: nat, stopped: bool) {
    && (forall n <- w.out :: n == w.attempts)
    && w.attempts <= maxAttempts
    && (w.released ==> w.phase.Answered? && w.out == {})
    && match w.phase
       case Waiting => w.attempts == 0 && w.out == {}
       case Admitted => w.attempts == 0 && w.out == {}
       case Attempting(n) => n == w.attempts && n >= 1 && n in w.out
       case BackingOff(n) => n == w.attempts && 1 <= n < maxAttempts
       case Settling(n) => n == w.attempts && 1 <= n < maxAttempts
       case Answered(outcome) =>
         && (outcome.Dropped? ==> stopped && w.attempts == 0 && w.out == {})
         && (!outcome.Dropped? ==> w.attempts >= 1)
         && (outcome == Failed(true) ==> stopped || w.attempts == maxAttempts)
         && (outcome.Superseded? ==> w.superseded)
         && (outcome.Landed? ==> w.out == {})
  }

  predicate WritesInv(ws: seq<Write>, maxAttempts: nat, stopped: bool) {
    forall i | 0 <= i < |ws| :: WriteInv(ws[i], maxAttempts, stopped)
  }

  /** Every older write of the key has handed it on. */
  predicate Clear(ws: seq<Write>, i: Id)
    requires i < |ws|
  {
    forall j | 0 <= j < i :: ws[j].key == ws[i].key ==> ws[j].released
  }

  predicate LinkInv(ws: seq<Write>, i: Id)
    requires i < |ws|
  {
    && (ws[i].previous.Some? ==> ws[i].previous.value < i && ws[ws[i].previous.value].key == ws[i].key)
    && (forall j | 0 <= j < i :: ws[j].key == ws[i].key ==>
          ws[j].released || (ws[i].previous.Some? && j <= ws[i].previous.value))
    && (Begun(ws[i]) || ws[i].released ==> Clear(ws, i))
  }

  predicate LinksInv(ws: seq<Write>) {
    forall i | 0 <= i < |ws| :: LinkInv(ws, i)
  }

  predicate ChainsInv(ws: seq<Write>, chains: map<Key, Id>) {
    && (forall k <- chains :: chains[k] < |ws| && ws[chains[k]].key == k && !ws[chains[k]].released)
    && (forall k <- chains, j | chains[k] < j < |ws| :: ws[j].key != k)
    && (forall i | 0 <= i < |ws| :: !ws[i].released ==> ws[i].key in chains)
  }

  predicate HasHeir(ws: seq<Write>, i: Id)
    requires i < |ws|
  {
    exists j | i < j < |ws| :: ws[j].key == ws[i].key
  }

  /** Superseded means that a newer write for the key exists, and every unreleased older write is superseded. */
  predicate HeirsInv(ws: seq<Write>) {
    && (forall i | 0 <= i < |ws| :: ws[i].superseded ==> HasHeir(ws, i))
    && (forall i, j | 0 <= i < j < |ws| :: ws[i].key == ws[j].key ==> ws[i].released || ws[i].superseded)
  }

  /** As `HeirsInv`, but for the write about to be marked. */
  predicate HeirsInvBut(ws: seq<Write>, p: int) {
    && (forall i | 0 <= i < |ws| :: ws[i].superseded ==> HasHeir(ws, i))
    && (forall i, j | 0 <= i < j < |ws| :: i != p && ws[i].key == ws[j].key ==> ws[i].released || ws[i].superseded)
  }

  predicate Before(ws: seq<Write>, a: Attempt, b: Attempt) {
    a.id < |ws| && b.id < |ws| && ws[a.id].key == ws[b.id].key ==> a.id < b.id || (a.id == b.id && a.n < b.n)
  }

  predicate StartsInv(ws: seq<Write>, starts: seq<Attempt>) {
    && (forall p | 0 <= p < |starts| :: starts[p].id < |ws| && 1 <= starts[p].n <= ws[starts[p].id].attempts)
    && (forall p, r | 0 <= p < r < |starts| :: Before(ws, starts[p], starts[r]))
    && (forall i, n | 0 <= i < |ws| && 1 <= n <= ws[i].attempts :: Attempt(i, n) in starts)
  }

  predicate Inv(q: Queue) {
    && q.maxAttempts >= 1
    && WritesInv(q.writes, q.maxAttempts, q.stopped)
    && LinksInv(q.writes)
    && ChainsInv(q.writes, q.chains)
    && HeirsInv(q.writes)
    && StartsInv(q.writes, q.starts)
  }

  /** What a step may do to one write. */
  predicate Evolves(w: Write, w': Write) {
    w'.key == w.key && w'.previous == w.previous && (w.released ==> w'.released)
  }

  lemma LinksPut(ws: seq<Write>, i: Id, w: Write)
    requires LinksInv(ws) && i < |ws| && Evolves(ws[i], w)
    requires Begun(w) || w.released ==> Clear(ws, i)
    ensures LinksInv(ws[i := w])
  {
    var ws' := ws[i := w];
    forall k | 0 <= k < |ws'|
      ensures LinkInv(ws', k)
    {
      assert LinkInv(ws, k);
    }
  }

  lemma HeirsPut(ws: seq<Write>, i: Id, w: Write)
    requires HeirsInv(ws) && i < |ws| && Evolves(ws[i], w)
    requires w.superseded == ws[i].superseded
    ensures HeirsInv(ws[i := w])
  {
    var ws' := ws[i := w];
    forall k | 0 <= k < |ws'| && ws'[k].superseded
      ensures HasHeir(ws', k)
    {
      var j :| k < j < |ws| && ws[j].key == ws[k].key;
      assert ws'[j].key == ws'[k].key;
    }
  }

  lemma ChainsPut(ws: seq<Write>, chains: map<Key, Id>, i: Id, w: Write)
    requires ChainsInv(ws, chains) && i < |ws| && Evolves(ws[i], w) && w.released == ws[i].released
    ensures ChainsInv(ws[i := w], chains)
  {
  }

  lemma StartsSame(ws: seq<Write>, starts: seq<Attempt>, i: Id, w: Write)
    requires StartsInv(ws, starts) && i < |ws| && Evolves(ws[i], w) && w.attempts == ws[i].attempts
    ensures StartsInv(ws[i := w], starts)
  {
    forall p, r | 0 <= p < r < |starts|
      ensures Before(ws[i := w], starts[p], starts[r])
    {
      assert Before(ws, starts[p], starts[r]);
    }
  }

  lemma WritesPut(ws: seq<Write>, maxAttempts: nat, stopped: bool, i: Id, w: Write)
    requires WritesInv(ws, maxAttempts, stopped) && i < |ws| && WriteInv(w, maxAttempts, stopped)
    ensures WritesInv(ws[i := w], maxAttempts, stopped)
  {
    hide WriteInv;
  }

  /** Every step that touches one write and starts nothing. */
  lemma PutKeeps(q: Queue, i: Id, w: Write)
    requires Inv(q) && i < |q.writes| && Evolves(q.writes[i], w)
    requires WriteInv(w, q.maxAttempts, q.stopped) && w.attempts == q.writes[i].attempts
    requires Begun(w) || w.released ==> Clear(q.writes, i)
    requires w.superseded == q.writes[i].superseded && w.released == q.writes[i].released
    ensures Inv(Put(q, i, w))
  {
    ChainsPut(q.writes, q.chains, i, w);
    PutAndChainKeeps(q, i, w, q.chains);
    assert Put(q, i, w).(chains := q.chains) == Put(q, i, w);
    hide Inv;
  }

  lemma PutAndChainKeeps(q: Queue, i: Id, w: Write, chains: map<Key, Id>)
    requires Inv(q) && i < |q.writes| && Evolves(q.writes[i], w)
    requires WriteInv(w, q.maxAttempts, q.stopped) && w.attempts == q.writes[i].attempts
    requires Begun(w) || w.released ==> Clear(q.writes, i)
    requires w.superseded == q.writes[i].superseded && ChainsInv(q.writes[i := w], chains)
    ensures Inv(Put(q, i, w).(chains := chains))
  {
    WritesPut(q.writes, q.maxAttempts, q.stopped, i, w);
    LinksPut(q.writes, i, w);
    HeirsPut(q.writes, i, w);
    StartsSame(q.writes, q.starts, i, w);
    hide WritesInv, LinksInv, ChainsInv, HeirsInv, StartsInv, WriteInv, Clear;
  }

  lemma FreeIsClear(q: Queue, i: Id)
    requires LinksInv(q.writes) && i < |q.writes| && Free(q, i)
    ensures Clear(q.writes, i)
  {
    assert LinkInv(q.writes, i);
    var p := q.writes[i].previous;
    if p.Some? {
      assert LinkInv(q.writes, p.value);
    }
  }

  lemma BegunIsClear(q: Queue, i: Id)
    requires LinksInv(q.writes) && i < |q.writes| && Begun(q.writes[i])
    ensures Clear(q.writes, i)
  {
    assert LinkInv(q.writes, i);
  }

  lemma StartsPut(ws: seq<Write>, starts: seq<Attempt>, i: Id, w: Write)
    requires StartsInv(ws, starts) && LinksInv(ws) && i < |ws| && Evolves(ws[i], w)
    requires w.attempts == ws[i].attempts + 1 && !ws[i].released
    ensures StartsInv(ws[i := w], starts + [Attempt(i, w.attempts)])
  {
    var ws' := ws[i := w];
    var a := Attempt(i, w.attempts);
    var starts' := starts + [a];
    forall p | 0 <= p < |starts|
      ensures Before(ws', starts[p], a)
    {
      assert LinkInv(ws, starts[p].id);
    }
    forall p, r | 0 <= p < r < |starts'|
      ensures Before(ws', starts'[p], starts'[r])
    {
      if r < |starts| {
        assert Before(ws, starts[p], starts[r]);
      }
    }
    forall k, n | 0 <= k < |ws'| && 1 <= n <= ws'[k].attempts
      ensures Attempt(k, n) in starts'
    {
      if k != i || n != w.attempts {
        assert Attempt(k, n) in starts;
      }
      assert starts'[|starts|] == a;
    }
  }

  lemma StartKeeps(q: Queue, i: Id)
    requires Inv(q) && i < |q.writes| && q.writes[i].out == {}
    requires q.writes[i].phase.Admitted? || q.writes[i].phase.Settling?
    ensures Inv(StartAttempt(q, i))
  {
    var w := q.writes[i];
    assert WriteInv(w, q.maxAttempts, q.stopped);
    var w' := StartAttempt(q, i).writes[i];
    BegunIsClear(q, i);
    WritesPut(q.writes, q.maxAttempts, q.stopped, i, w');
    LinksPut(q.writes, i, w');
    ChainsPut(q.writes, q.chains, i, w');
    HeirsPut(q.writes, i, w');
    StartsPut(q.writes, q.starts, i, w');
    hide WritesInv, LinksInv, ChainsInv, HeirsInv, StartsInv, Clear;
  }

  lemma AnswerKeeps(q: Queue, i: Id, outcome: Outcome)
    requires Inv(q) && i < |q.writes| && !q.writes[i].released
    requires WriteInv(q.writes[i].(phase := Answered(outcome)), q.maxAttempts, q.stopped)
    ensures Inv(AnswerCaller(q, i, outcome))
  {
    assert LinkInv(q.writes, i);
    PutKeeps(q, i, q.writes[i].(phase := Answered(outcome)));
    hide WritesInv, LinksInv, ChainsInv, HeirsInv, StartsInv;
  }

  /** What a failed attempt leaves of its write, whether its command answered (`heard`) or was given up on. */
  lemma FailedWrite(q: Queue, i: Id, retryable: bool, heard: set<nat>) returns (w': Write)
    requires i < |q.writes| && q.writes[i].phase.Attempting? && WriteInv(q.writes[i], q.maxAttempts, q.stopped)
    ensures var w := q.writes[i]; var q' := AttemptFails(Put(q, i, w.(out := w.out - heard)), i, w.phase.n, retryable);
            q'.writes == q.writes[i := w'] && q'.(writes := q.writes, abandoned := q.abandoned) == q
    ensures WriteInv(w', q.maxAttempts, q.stopped) && Evolves(q.writes[i], w') && w'.superseded == q.writes[i].superseded
    ensures w'.attempts == q.writes[i].attempts && w'.released == q.writes[i].released && Begun(q.writes[i])
  {
    var w := q.writes[i];
    var q' := AttemptFails(Put(q, i, w.(out := w.out - heard)), i, w.phase.n, retryable);
    w' := q'.writes[i];
  }

  lemma FailKeeps(q: Queue, i: Id, retryable: bool, heard: set<nat>)
    requires Inv(q) && i < |q.writes| && q.writes[i].phase.Attempting?
    ensures var w := q.writes[i]; Inv(AttemptFails(Put(q, i, w.(out := w.out - heard)), i, w.phase.n, retryable))
  {
    var w' := FailedWrite(q, i, retryable, heard);
    BegunIsClear(q, i);
    hide WriteInv, Clear, AttemptFails;
    PutKeeps(q, i, w');
    hide WritesInv, LinksInv, ChainsInv, HeirsInv, StartsInv;
  }

  lemma LinksAppend(ws: seq<Write>, chains: map<Key, Id>, w: Write)
    requires LinksInv(ws) && ChainsInv(ws, chains)
    requires w.phase.Waiting? && w.attempts == 0 && !w.released
    requires w.previous == if w.key in chains then Some(chains[w.key]) else None
    ensures LinksInv(ws + [w])
  {
    var ws' := ws + [w];
    forall k | 0 <= k < |ws'|
      ensures LinkInv(ws', k)
    {
      if k < |ws| {
        assert LinkInv(ws, k);
      }
    }
  }

  lemma HeirsAppend(ws: seq<Write>, chains: map<Key, Id>, w: Write)
    requires HeirsInv(ws) && ChainsInv(ws, chains) && !w.superseded
    ensures HeirsInvBut(ws + [w], if w.key in chains then chains[w.key] else -1)
  {
    var ws' := ws + [w];
    forall k | 0 <= k < |ws'| && ws'[k].superseded
      ensures HasHeir(ws', k)
    {
      var j :| k < j < |ws| && ws[j].key == ws[k].key;
      assert ws'[j].key == ws'[k].key;
    }
  }

  lemma HeirsMark(ws: seq<Write>, p: Id)
    requires HeirsInvBut(ws, p) && p < |ws| && HasHeir(ws, p)
    ensures HeirsInv(ws[p := ws[p].(superseded := true)])
  {
    var ws' := ws[p := ws[p].(superseded := true)];
    forall k | 0 <= k < |ws'| && ws'[k].superseded
      ensures HasHeir(ws', k)
    {
      var j :| k < j < |ws| && ws[j].key == ws[k].key;
      assert ws'[j].key == ws'[k].key;
    }
  }

  lemma StartsAppend(ws: seq<Write>, starts: seq<Attempt>, w: Write)
    requires StartsInv(ws, starts) && w.attempts == 0
    ensures StartsInv(ws + [w], starts)
  {
    forall p, r | 0 <= p < r < |starts|
      ensures Before(ws + [w], starts[p], starts[r])
    {
      assert Before(ws, starts[p], starts[r]);
    }
  }

  lemma ChainsAppend(ws: seq<Write>, chains: map<Key, Id>, w: Write)
    requires ChainsInv(ws, chains) && !w.released
    ensures ChainsInv(ws + [w], chains[w.key := |ws|])
  {
  }

  predicate InvBut(q: Queue, p: int) {
    && q.maxAttempts >= 1
    && WritesInv(q.writes, q.maxAttempts, q.stopped)
    && LinksInv(q.writes)
    && ChainsInv(q.writes, q.chains)
    && HeirsInvBut(q.writes, p)
    && StartsInv(q.writes, q.starts)
  }

  lemma AppendKeeps(q: Queue, w: Write)
    requires Inv(q) && w == Write(w.key, if w.key in q.chains then Some(q.chains[w.key]) else None, false, Waiting, 0, {}, false)
    ensures InvBut(q.(writes := q.writes + [w], chains := q.chains[w.key := |q.writes|]),
                   if w.key in q.chains then q.chains[w.key] else -1)
  {
    LinksAppend(q.writes, q.chains, w);
    HeirsAppend(q.writes, q.chains, w);
    StartsAppend(q.writes, q.starts, w);
    ChainsAppend(q.writes, q.chains, w);
    hide LinksInv, HeirsInv, HeirsInvBut, StartsInv, ChainsInv;
  }

  lemma MarkKeeps(q: Queue, p: Id)
    requires InvBut(q, p) && p < |q.writes| && HasHeir(q.writes, p)
    ensures Inv(Put(q, p, q.writes[p].(superseded := true)))
  {
    var w := q.writes[p].(superseded := true);
    assert LinkInv(q.writes, p) && WriteInv(q.writes[p], q.maxAttempts, q.stopped);
    WritesPut(q.writes, q.maxAttempts, q.stopped, p, w);
    LinksPut(q.writes, p, w);
    ChainsPut(q.writes, q.chains, p, w);
    HeirsMark(q.writes, p);
    StartsSame(q.writes, q.starts, p, w);
    hide WritesInv, LinksInv, ChainsInv, HeirsInv, HeirsInvBut, StartsInv, WriteInv, Clear, LinkInv;
  }

  lemma EnqueueIsAppendThenMark(q: Queue, key: Key)
    requires ChainsInv(q.writes, q.chains)
    ensures var i := |q.writes|;
            var w := Write(key, if key in q.chains then Some(q.chains[key]) else None, false, Waiting, 0, {}, false);
            var q1 := q.(writes := q.writes + [w], chains := q.chains[key := i]);
            if key in q.chains then
              var p := q.chains[key];
              && p < i && HasHeir(q1.writes, p)
              && EnqueueStep(q, key) == Put(q1, p, q1.writes[p].(superseded := true))
            else EnqueueStep(q, key) == q1
  {
    if key in q.chains {
      var p := q.chains[key];
      var w := Write(key, Some(p), false, Waiting, 0, {}, false);
      assert (q.writes + [w])[|q.writes|].key == (q.writes + [w])[p].key;
      assert q.writes[p := q.writes[p].(superseded := true)] + [w] == (q.writes + [w])[p := q.writes[p].(superseded := true)];
    }
  }

  lemma EnqueueKeeps(q: Queue, key: Key)
    requires Inv(q)
    ensures Inv(EnqueueStep(q, key))
  {
    var w := Write(key, if key in q.chains then Some(q.chains[key]) else None, false, Waiting, 0, {}, false);
    var q1 := q.(writes := q.writes + [w], chains := q.chains[key := |q.writes|]);
    EnqueueIsAppendThenMark(q, key);
    hide EnqueueStep, HasHeir, WritesInv, LinksInv, ChainsInv, StartsInv;
    AppendKeeps(q, w);
    if key in q.chains {
      hide Inv, InvBut;
      MarkKeeps(q1, q.chains[key]);
    } else {
      assert HeirsInv(q1.writes);
    }
  }

  lemma PassGateKeeps(q: Queue, i: Id)
    requires Inv(q)
    ensures Inv(PassGateStep(q, i))
  {
    if i < |q.writes| && q.writes[i].phase.Waiting? {
      var w := q.writes[i];
      assert WriteInv(w, q.maxAttempts, q.stopped);
      if q.stopped {
        AnswerKeeps(q, i, Dropped);
      } else if Free(q, i) {
        FreeIsClear(q, i);
        PutKeeps(q, i, w.(phase := Admitted));
      }
    }
    hide Inv;
  }

  lemma BeginKeeps(q: Queue, i: Id)
    requires Inv(q)
    ensures Inv(BeginStep(q, i))
  {
    if i < |q.writes| && q.writes[i].phase.Admitted? {
      assert WriteInv(q.writes[i], q.maxAttempts, q.stopped);
      if q.stopped {
        AnswerKeeps(q, i, Dropped);
      } else {
        StartKeeps(q, i);
      }
    }
    hide Inv;
  }

  /** An answer that is still being waited for, or one that comes after its attempt was given up on. */
  lemma HeardKeeps(q: Queue, i: Id, n: nat)
    requires Inv(q) && i < |q.writes| && n in q.writes[i].out
    ensures var w := q.writes[i]; var q1 := Put(q, i, w.(out := w.out - {n}));
            Inv(if w.phase == Attempting(n) then AnswerCaller(q1, i, Landed) else q1)
  {
    var w := q.writes[i];
    assert WriteInv(w, q.maxAttempts, q.stopped);
    assert LinkInv(q.writes, i);
    var w1 := w.(out := w.out - {n});
    if w.phase == Attempting(n) {
      var w2 := w1.(phase := Answered(Landed));
      PutKeeps(q, i, w2);
      assert Put(Put(q, i, w1), i, w2).writes == Put(q, i, w2).writes;
    } else {
      PutKeeps(q, i, w1);
    }
    hide WritesInv, LinksInv, ChainsInv, HeirsInv, StartsInv, Clear, WriteInv;
  }

  lemma CommandAnswersKeeps(q: Queue, i: Id, n: nat, reply: Reply)
    requires Inv(q)
    ensures Inv(CommandAnswersStep(q, i, n, reply))
  {
    if i < |q.writes| && n in q.writes[i].out {
      HeardKeeps(q, i, n);
      if q.writes[i].phase == Attempting(n) {
        FailKeeps(q, i, reply.Error?, {n});
      }
    }
    hide Inv, AttemptFails, AnswerCaller;
  }

  lemma TimeOutKeeps(q: Queue, i: Id)
    requires Inv(q)
    ensures Inv(TimeOutStep(q, i))
  {
    if i < |q.writes| && q.writes[i].phase.Attempting? {
      var w := q.writes[i];
      FailKeeps(q, i, true, {});
      assert w.(out := w.out - {}) == w && q.writes[i := w] == q.writes;
    }
    hide Inv, AttemptFails;
  }

  lemma WakeKeeps(q: Queue, i: Id)
    requires Inv(q)
    ensures Inv(WakeStep(q, i))
  {
    if i < |q.writes| && q.writes[i].phase.BackingOff? {
      var w := q.writes[i];
      assert WriteInv(w, q.maxAttempts, q.stopped);
      BegunIsClear(q, i);
      PutKeeps(q, i, w.(phase := Settling(w.phase.n)));
    }
    hide Inv;
  }

  lemma ResumeKeeps(q: Queue, i: Id)
    requires Inv(q)
    ensures Inv(ResumeStep(q, i))
  {
    if i < |q.writes| && q.writes[i].phase.Settling? && (q.writes[i].out == {} || q.stopped) {
      var w := q.writes[i];
      assert WriteInv(w, q.maxAttempts, q.stopped);
      if w.superseded {
        AnswerKeeps(q, i, Superseded);
      } else if q.stopped {
        AnswerKeeps(q, i, Failed(true));
      } else {
        StartKeeps(q, i);
      }
    }
    hide Inv;
  }

  lemma ReleaseKeeps(q: Queue, i: Id)
    requires Inv(q)
    ensures Inv(ReleaseStep(q, i))
  {
    var q' := ReleaseStep(q, i);
    if q' != q {
      var w := q.writes[i];
      assert WriteInv(w, q.maxAttempts, q.stopped);
      FreeIsClear(q, i);
      hide Free;
      UnchainKeeps(q.writes, q.chains, i);
      hide ChainsInv;
      PutAndChainKeeps(q, i, w.(released := true), q'.chains);
    }
    hide Inv;
  }

  lemma UnchainKeeps(ws: seq<Write>, chains: map<Key, Id>, i: Id)
    requires ChainsInv(ws, chains) && i < |ws| && Clear(ws, i)
    ensures var key := ws[i].key;
            ChainsInv(ws[i := ws[i].(released := true)], if key in chains && chains[key] == i then chains - {key} else chains)
  {
  }

  lemma StopKeeps(q: Queue)
    requires Inv(q)
    ensures Inv(q.(stopped := true))
  {
    hide LinksInv, ChainsInv, HeirsInv, StartsInv;
  }

  lemma ConfirmKeeps(q: Queue, c: ConfirmId)
    requires Inv(q)
    ensures Inv(CallConfirmStep(q, c)) && Inv(ReturnConfirmStep(q, c))
  {
    hide WritesInv, LinksInv, ChainsInv, HeirsInv, StartsInv;
  }

  lemma InvStep(q: Queue, e: Event)
    requires Inv(q)
    ensures Inv(Apply(q, e))
  {
    hide Inv, EnqueueStep, PassGateStep, BeginStep, CommandAnswersStep, TimeOutStep, WakeStep, ResumeStep, ReleaseStep;
    hide CallConfirmStep, ReturnConfirmStep;
    match e {
      case Enqueue(key) => EnqueueKeeps(q, key);
      case PassGate(i) => PassGateKeeps(q, i);
      case Begin(i) => BeginKeeps(q, i);
      case CommandAnswers(i, n, reply) => CommandAnswersKeeps(q, i, n, reply);
      case TimeOut(i) => TimeOutKeeps(q, i);
      case Wake(i) => WakeKeeps(q, i);
      case Resume(i) => ResumeKeeps(q, i);
      case Release(i) => ReleaseKeeps(q, i);
      case StopRetrying => StopKeeps(q);
      case CallConfirm(c) => ConfirmKeeps(q, c);
      case ReturnConfirm(c) => ConfirmKeeps(q, c);
    }
  }

  lemma {:induction false} InvRun(q: Queue, es: seq<Event>)
    requires Inv(q)
    ensures Inv(Run(q, es))
    decreases |es|
  {
    if es != [] {
      InvStep(q, es[0]);
      hide Inv, Apply;
      InvRun(Apply(q, es[0]), es[1..]);
    }
  }

  // ---- What each step does, write by write ----

  /** The caller still waits for attempt `n`, and its command is out. */
  predicate Awaited(q: Queue, i: Id, n: nat) {
    i < |q.writes| && q.writes[i].phase == Attempting(n) && n in q.writes[i].out
  }

  predicate Hears(q: Queue, e: Event, i: Id, reply: Reply) {
    i < |q.writes| && q.writes[i].phase.Attempting? && Awaited(q, i, q.writes[i].phase.n)
    && e == CommandAnswers(i, q.writes[i].phase.n, reply)
  }

  /** The awaited attempt fails in a way that could be tried again. */
  predicate FailsRetryably(q: Queue, e: Event, i: Id) {
    Hears(q, e, i, Error) || (i < |q.writes| && q.writes[i].phase.Attempting? && e == TimeOut(i))
  }

  predicate Spent(q: Queue, i: Id)
    requires i < |q.writes| && q.writes[i].phase.Attempting?
  {
    q.writes[i].phase.n == q.maxAttempts || q.stopped
  }

  /** The backoff is over and nothing holds the write back any longer. */
  predicate Resumes(q: Queue, e: Event, i: Id) {
    i < |q.writes| && e == Resume(i) && q.writes[i].phase.Settling? && (q.writes[i].out == {} || q.stopped)
  }

  /** What a step makes of one write, seen from that write alone. */
  function NextWrite(q: Queue, e: Event, i: Id): Write
    requires i < |q.writes|
  {
    var w := q.writes[i];
    if e.Enqueue? then w.(superseded := w.superseded || (e.key in q.chains && q.chains[e.key] == i))
    else if e.StopRetrying? || e.CallConfirm? || e.ReturnConfirm? || e.id != i then w
    else match w.phase
      case Waiting =>
        if !e.PassGate? then Silent(w, e)
        else if q.stopped then w.(phase := Answered(Dropped))
        else if Free(q, i) then w.(phase := Admitted) else w
      case Admitted =>
        if !e.Begin? then Silent(w, e) else if q.stopped then w.(phase := Answered(Dropped)) else Started(w)
      case Attempting(n) =>
        if e.TimeOut? then Failing(q, w, n)
        else if !(e.CommandAnswers? && e.n == n && n in w.out) then Silent(w, e)
        else (match e.reply
          case Ok => Silent(w, e).(phase := Answered(Landed))
          case Error => Failing(q, Silent(w, e), n)
          case NonRetryable => Silent(w, e).(phase := Answered(Failed(false))))
      case BackingOff(n) => if e.Wake? then w.(phase := Settling(n)) else Silent(w, e)
      case Settling(_) =>
        if !e.Resume? then Silent(w, e)
        else if !(w.out == {} || q.stopped) then w
        else if w.superseded then w.(phase := Answered(Superseded))
        else if q.stopped then w.(phase := Answered(Failed(true)))
        else Started(w)
      case Answered(_) =>
        if e.Release? && w.out == {} && Free(q, i) then w.(released := true) else Silent(w, e)
  }

  /** A command that answers is out no longer, whoever still waits for it. */
  function Silent(w: Write, e: Event): Write {
    if e.CommandAnswers? then w.(out := w.out - {e.n}) else w
  }

  function Started(w: Write): Write {
    w.(phase := Attempting(w.attempts + 1), attempts := w.attempts + 1, out := w.out + {w.attempts + 1})
  }

  function Failing(q: Queue, w: Write, n: nat): Write {
    w.(phase := if n == q.maxAttempts || q.stopped then Answered(Failed(true))
                else if w.superseded then Answered(Superseded) else BackingOff(n))
  }

  lemma FailureFollows(q: Queue, i: Id, n: nat, retryable: bool)
    requires i < |q.writes|
    ensures var t := AttemptFails(q, i, n, retryable);
            && |t.writes| == |q.writes|
            && t.writes[i] == (if retryable then Failing(q, q.writes[i], n) else q.writes[i].(phase := Answered(Failed(false))))
            && forall j | 0 <= j < |q.writes| && j != i :: t.writes[j] == q.writes[j]
  {
    hide Remember;
  }

  lemma AnswerFollows(q: Queue, j: Id, n: nat, reply: Reply, i: Id)
    requires i < |q.writes|
    ensures var e := CommandAnswers(j, n, reply); i < |Apply(q, e).writes| && Apply(q, e).writes[i] == NextWrite(q, e, i)
  {
    if j < |q.writes| {
      var q1 := Put(q, j, q.writes[j].(out := q.writes[j].out - {n}));
      FailureFollows(q1, j, n, reply.Error?);
      assert n !in q.writes[j].out ==> q.writes[j].out - {n} == q.writes[j].out;
    }
    hide AttemptFails, Remember, Free;
  }

  lemma TurnFollows(q: Queue, j: Id, i: Id)
    requires i < |q.writes|
    ensures i < |PassGateStep(q, j).writes| && PassGateStep(q, j).writes[i] == NextWrite(q, PassGate(j), i)
    ensures i < |BeginStep(q, j).writes| && BeginStep(q, j).writes[i] == NextWrite(q, Begin(j), i)
    ensures i < |WakeStep(q, j).writes| && WakeStep(q, j).writes[i] == NextWrite(q, Wake(j), i)
  {
    hide Remember, Free;
  }

  lemma LateTurnFollows(q: Queue, j: Id, i: Id)
    requires i < |q.writes|
    ensures i < |ResumeStep(q, j).writes| && ResumeStep(q, j).writes[i] == NextWrite(q, Resume(j), i)
    ensures i < |ReleaseStep(q, j).writes| && ReleaseStep(q, j).writes[i] == NextWrite(q, Release(j), i)
  {
    hide Remember, Free;
  }

  lemma TimeOutFollows(q: Queue, j: Id, i: Id)
    requires i < |q.writes|
    ensures i < |TimeOutStep(q, j).writes| && TimeOutStep(q, j).writes[i] == NextWrite(q, TimeOut(j), i)
  {
    if j < |q.writes| && q.writes[j].phase.Attempting? {
      FailureFollows(q, j, q.writes[j].phase.n, true);
    }
    hide AttemptFails;
  }

  lemma WriteFollows(q: Queue, e: Event, i: Id)
    requires i < |q.writes|
    ensures i < |Apply(q, e).writes| && Apply(q, e).writes[i] == NextWrite(q, e, i)
  {
    match e {
      case Enqueue(_) =>
      case PassGate(j) => TurnFollows(q, j, i);
      case Begin(j) => TurnFollows(q, j, i);
      case CommandAnswers(j, n, reply) => AnswerFollows(q, j, n, reply, i);
      case TimeOut(j) => TimeOutFollows(q, j, i);
      case Wake(j) => TurnFollows(q, j, i);
      case Resume(j) => LateTurnFollows(q, j, i);
      case Release(j) => LateTurnFollows(q, j, i);
      case _ =>
    }
    hide PassGateStep, BeginStep, CommandAnswersStep, TimeOutStep, WakeStep, ResumeStep, ReleaseStep, Unreleased, AllAnswered, Started, Failing;
  }

  /** A caller is told that its write landed exactly when its awaited command answers without an error. */
  lemma LandsIff(q: Queue, e: Event, i: Id)
    requires i < |q.writes|
    ensures var t := Apply(q, e);
            i < |t.writes| && (t.writes[i].phase == Answered(Landed) <==> q.writes[i].phase == Answered(Landed) || Hears(q, e, i, Ok))
  {
    WriteFollows(q, e, i);
    hide Apply, Free;
  }

  /** A retryable failure backs off exactly when attempts are left, the queue runs and no newer write took over. */
  lemma BacksOffIff(q: Queue, e: Event, i: Id, n: nat)
    requires i < |q.writes|
    ensures var t := Apply(q, e);
            i < |t.writes| &&
            (t.writes[i].phase == BackingOff(n) <==>
               || (q.writes[i].phase == BackingOff(n) && e != Wake(i))
               || (FailsRetryably(q, e, i) && q.writes[i].phase.n == n && !Spent(q, i) && !q.writes[i].superseded))
  {
    WriteFollows(q, e, i);
    hide Apply, Free;
  }

  /** The three ways to give up on a write that was attempted. */
  lemma FailsIff(q: Queue, e: Event, i: Id)
    requires i < |q.writes|
    ensures var w := q.writes[i]; var t := Apply(q, e);
            && i < |t.writes|
            && (t.writes[i].phase == Answered(Failed(false)) <==> w.phase == Answered(Failed(false)) || Hears(q, e, i, NonRetryable))
            && (t.writes[i].phase == Answered(Failed(true)) <==>
                  || w.phase == Answered(Failed(true))
                  || (FailsRetryably(q, e, i) && Spent(q, i))
                  || (Resumes(q, e, i) && !w.superseded && q.stopped))
            && (t.writes[i].phase == Answered(Superseded) <==>
                  || w.phase == Answered(Superseded)
                  || (FailsRetryably(q, e, i) && !Spent(q, i) && w.superseded)
                  || (Resumes(q, e, i) && w.superseded))
  {
    WriteFollows(q, e, i);
    hide Apply, Free;
  }

  /** A write is dropped exactly when the stop switch meets it before its first attempt; otherwise its turn comes when
      its key is free, and after a backoff it waits for its commands. */
  lemma DropsIff(q: Queue, e: Event, i: Id)
    requires i < |q.writes|
    ensures var w := q.writes[i]; var t := Apply(q, e);
            && i < |t.writes|
            && (t.writes[i].phase == Answered(Dropped) <==>
                  || w.phase == Answered(Dropped)
                  || (q.stopped && ((e == PassGate(i) && w.phase.Waiting?) || (e == Begin(i) && w.phase.Admitted?))))
            && (t.writes[i].phase == Admitted <==>
                  || (w.phase == Admitted && e != Begin(i))
                  || (e == PassGate(i) && w.phase.Waiting? && !q.stopped && Free(q, i)))
            && (t.writes[i].phase.Settling? <==>
                  || (w.phase.Settling? && !Resumes(q, e, i))
                  || (e == Wake(i) && w.phase.BackingOff?))
  {
    WriteFollows(q, e, i);
    hide Apply, Free;
  }

  predicate StartsNow(q: Queue, e: Event, i: Id) {
    i < |q.writes| && !q.stopped
    && ((e == Begin(i) && q.writes[i].phase.Admitted?) || (Resumes(q, e, i) && !q.writes[i].superseded))
  }

  /** A command starts exactly when an admitted write begins or a waiting retry goes on; it is out until it answers. */
  lemma StartsIff(q: Queue, e: Event, i: Id)
    requires i < |q.writes|
    ensures var w := q.writes[i]; var t := Apply(q, e);
            && i < |t.writes|
            && t.writes[i].attempts == w.attempts + (if StartsNow(q, e, i) then 1 else 0)
            && (StartsNow(q, e, i) ==> t.writes[i].phase == Attempting(w.attempts + 1))
            && (forall n :: n in t.writes[i].out <==>
                  || (n in w.out && !(e.CommandAnswers? && e.id == i && e.n == n))
                  || (StartsNow(q, e, i) && n == w.attempts + 1))
  {
    WriteFollows(q, e, i);
    hide Apply, Free;
  }

  /** The key is handed on exactly when the caller is answered, no command is out and the write before it let go. */
  lemma ReleasesIff(q: Queue, e: Event, i: Id)
    requires i < |q.writes|
    ensures var w := q.writes[i]; var t := Apply(q, e);
            && i < |t.writes|
            && (t.writes[i].released <==>
                  || w.released
                  || (e == Release(i) && w.phase.Answered? && w.out == {}
                      && (w.previous.Some? ==> w.previous.value < |q.writes| && q.writes[w.previous.value].released)))
  {
    WriteFollows(q, e, i);
    hide Apply;
  }

  /** A new write is last, has not begun, and follows the key's latest unreleased write, which alone is marked. */
  lemma EnqueuesLast(q0: Queue, es: seq<Event>, key: Key)
    requires Initial(q0)
    ensures var q := Run(q0, es); var t := Apply(q, Enqueue(key)); var i := |q.writes|;
            && |t.writes| == i + 1
            && t.writes[i].key == key && t.writes[i].phase == Waiting && t.writes[i].attempts == 0 && !t.writes[i].superseded
            && (t.writes[i].previous.None? <==> forall j | 0 <= j < i :: q.writes[j].key == key ==> q.writes[j].released)
            && (forall j | 0 <= j < i :: t.writes[i].previous == Some(j) ==>
                  q.writes[j].key == key && forall k | j < k < i :: q.writes[k].key != key)
            && (forall j | 0 <= j < i :: t.writes[j] == q.writes[j].(superseded := q.writes[j].superseded || t.writes[i].previous == Some(j)))
  {
    InvRun(q0, es);
    hide Run;
    NewWriteFollows(Run(q0, es), key);
  }

  lemma NewWriteFollows(q: Queue, key: Key)
    requires ChainsInv(q.writes, q.chains)
    ensures var t := EnqueueStep(q, key); var i := |q.writes|;
            && |t.writes| == i + 1
            && t.writes[i].key == key && t.writes[i].phase == Waiting && t.writes[i].attempts == 0 && !t.writes[i].superseded
            && (t.writes[i].previous.None? <==> forall j | 0 <= j < i :: q.writes[j].key == key ==> q.writes[j].released)
            && (forall j | 0 <= j < i :: t.writes[i].previous == Some(j) ==>
                  q.writes[j].key == key && forall k | j < k < i :: q.writes[k].key != key)
            && (forall j | 0 <= j < i :: t.writes[j] == q.writes[j].(superseded := q.writes[j].superseded || t.writes[i].previous == Some(j)))
  {
  }

  // ---- What was really written ----

  /** Step `k` of the run is the awaited command of write `i` answering without an error. */
  predicate Written(q0: Queue, es: seq<Event>, k: nat, i: Id) {
    k < |es| && Hears(Run(q0, es[..k]), es[k], i, Ok)
  }

  ghost predicate EverWritten(q0: Queue, es: seq<Event>, i: Id) {
    exists k | 0 <= k < |es| :: Written(q0, es, k, i)
  }

  lemma RunSnoc(q: Queue, es: seq<Event>)
    requires es != []
    ensures Run(q, es) == Apply(Run(q, es[..|es| - 1]), es[|es| - 1])
  {
    hide Apply;
    assert es[..|es| - 1] + [es[|es| - 1]] == es;
    RunConcat(q, es[..|es| - 1], [es[|es| - 1]]);
    RunOne(Run(q, es[..|es| - 1]), es[|es| - 1]);
  }

  lemma WrittenSnoc(q0: Queue, es: seq<Event>, i: Id)
    requires es != []
    ensures var init := es[..|es| - 1];
            EverWritten(q0, es, i) <==> EverWritten(q0, init, i) || Hears(Run(q0, init), es[|es| - 1], i, Ok)
  {
    hide Run, Hears;
    var init := es[..|es| - 1];
    forall k | 0 <= k < |init|
      ensures Written(q0, init, k, i) <==> Written(q0, es, k, i)
    {
      assert init[..k] == es[..k];
    }
    if Hears(Run(q0, init), es[|es| - 1], i, Ok) {
      assert Written(q0, es, |es| - 1, i);
    }
    if EverWritten(q0, es, i) {
      var k :| 0 <= k < |es| && Written(q0, es, k, i);
      if k < |init| {
        assert Written(q0, init, k, i);
      }
    }
  }

  /** A step onto a write that was not there yet leaves it waiting. */
  lemma NewWriteWaits(q: Queue, e: Event, i: Id)
    requires |q.writes| <= i < |Apply(q, e).writes|
    ensures Apply(q, e).writes[i].phase == Waiting
  {
    hide Free, Remember, Unreleased, AllAnswered;
    if !e.Enqueue? {
      OnlyEnqueueAdds(q, e);
    }
  }

  lemma OnlyEnqueueAdds(q: Queue, e: Event)
    requires !e.Enqueue?
    ensures |Apply(q, e).writes| == |q.writes|
  {
    hide Free, Remember, Unreleased, AllAnswered;
  }

  /** In every run, a caller was told that its write landed exactly when the command it waited for had answered
      without an error. */
  lemma {:induction false} LandedIffWritten(q0: Queue, es: seq<Event>, i: Id)
    requires Initial(q0)
    ensures var q := Run(q0, es); i < |q.writes| ==> (q.writes[i].phase == Answered(Landed) <==> EverWritten(q0, es, i))
    ensures EverWritten(q0, es, i) ==> i < |Run(q0, es).writes|
    decreases |es|
  {
    if es != [] {
      var init, e := es[..|es| - 1], es[|es| - 1];
      var q := Run(q0, init);
      LandedIffWritten(q0, init, i);
      RunSnoc(q0, es);
      WrittenSnoc(q0, es, i);
      hide Run, EverWritten;
      if i < |q.writes| {
        LandsIff(q, e, i);
      } else if i < |Apply(q, e).writes| {
        NewWriteWaits(q, e, i);
      }
      hide Apply;
    }
  }

  // ---- One command per key, in order ----

  lemma InvAtStart(q: Queue)
    requires Initial(q)
    ensures Inv(q)
  {
  }

  predicate Out(q: Queue, i: Id, n: nat) {
    i < |q.writes| && n in q.writes[i].out
  }

  /** A write whose turn has come has no older sibling with a command out. */
  lemma OlderIsQuiet(q: Queue, i: Id, j: Id)
    requires WritesInv(q.writes, q.maxAttempts, q.stopped) && LinksInv(q.writes)
    requires i < j < |q.writes| && q.writes[i].key == q.writes[j].key && q.writes[j].attempts > 0
    ensures q.writes[i].out == {} && q.writes[i].phase.Answered?
  {
    assert LinkInv(q.writes, j);
    assert WriteInv(q.writes[i], q.maxAttempts, q.stopped);
    hide WritesInv, LinksInv;
  }

  lemma OutIsCurrent(q: Queue, i: Id, n: nat)
    requires WritesInv(q.writes, q.maxAttempts, q.stopped) && Out(q, i, n)
    ensures n == q.writes[i].attempts > 0
  {
    assert WriteInv(q.writes[i], q.maxAttempts, q.stopped);
    hide WritesInv;
  }

  /** At every moment of every run a key has at most one command without an answer: across timeouts, retries,
      supersession and shutdown. */
  lemma OneUnansweredCommandPerKey(q0: Queue, es: seq<Event>, i: Id, n: nat, j: Id, m: nat)
    requires Initial(q0)
    ensures var q := Run(q0, es);
            Out(q, i, n) && Out(q, j, m) && q.writes[i].key == q.writes[j].key ==> i == j && n == m
  {
    InvRun(q0, es);
    var q := Run(q0, es);
    hide Run, WritesInv, LinksInv, ChainsInv, HeirsInv, StartsInv;
    if Out(q, i, n) {
      OutIsCurrent(q, i, n);
      if j < i && q.writes[i].key == q.writes[j].key {
        OlderIsQuiet(q, j, i);
      }
    }
    if Out(q, j, m) {
      OutIsCurrent(q, j, m);
      if i < j && q.writes[i].key == q.writes[j].key {
        OlderIsQuiet(q, i, j);
      }
    }
  }

  /** Once a write has started, every command of every older write for its key has answered: no abandoned
      command can land on top of a newer write. */
  lemma NoOlderCommandLandsLater(q0: Queue, es: seq<Event>, i: Id, n: nat, j: Id)
    requires Initial(q0)
    ensures var q := Run(q0, es);
            i < j < |q.writes| && q.writes[i].key == q.writes[j].key && q.writes[j].attempts > 0 ==>
              !Out(q, i, n) && q.writes[i].phase.Answered?
  {
    InvRun(q0, es);
    var q := Run(q0, es);
    hide Run, WritesInv, LinksInv, ChainsInv, HeirsInv, StartsInv;
    if i < j < |q.writes| && q.writes[i].key == q.writes[j].key && q.writes[j].attempts > 0 {
      OlderIsQuiet(q, i, j);
    }
  }

  /** Of two command starts for one key, the earlier belongs to an older write, or is an earlier attempt of the
      same one: first attempts come in enqueue order and no retry follows a newer write's first attempt. */
  lemma StartsFollowEnqueueOrder(q0: Queue, es: seq<Event>, p: nat, r: nat)
    requires Initial(q0)
    ensures var q := Run(q0, es);
            p < r < |q.starts| ==>
              && q.starts[p].id < |q.writes| && q.starts[r].id < |q.writes|
              && (q.writes[q.starts[p].id].key == q.writes[q.starts[r].id].key ==>
                    q.starts[p].id < q.starts[r].id || (q.starts[p].id == q.starts[r].id && q.starts[p].n < q.starts[r].n))
  {
    InvRun(q0, es);
    var q := Run(q0, es);
    hide Run;
    if p < r < |q.starts| {
      assert Before(q.writes, q.starts[p], q.starts[r]);
    }
  }

  lemma {:induction false} SupersededRun(q: Queue, es: seq<Event>, i: Id)
    requires Inv(q) && i < |q.writes| && q.writes[i].superseded
    ensures i < |Run(q, es).writes| && Run(q, es).writes[i].attempts <= if q.writes[i].attempts == 0 then 1 else q.writes[i].attempts
    decreases |es|
  {
    if es != [] {
      var t := Apply(q, es[0]);
      SupersededStep(q, es[0], i);
      InvStep(q, es[0]);
      hide Apply, Inv;
      SupersededRun(t, es[1..], i);
    }
  }

  predicate KeepsAttempts(q: Queue, t: Queue) {
    && |q.writes| <= |t.writes|
    && forall i | 0 <= i < |q.writes| ::
         t.writes[i].attempts == q.writes[i].attempts && (q.writes[i].superseded ==> t.writes[i].superseded)
  }

  lemma FailureStartsNothing(q: Queue, i: Id, n: nat, retryable: bool)
    requires i < |q.writes|
    ensures KeepsAttempts(q, AttemptFails(q, i, n, retryable))
  {
  }

  lemma AnswerStartsNothing(q: Queue, i: Id, n: nat, reply: Reply)
    ensures KeepsAttempts(q, CommandAnswersStep(q, i, n, reply)) && KeepsAttempts(q, TimeOutStep(q, i))
  {
    if i < |q.writes| {
      FailureStartsNothing(Put(q, i, q.writes[i].(out := q.writes[i].out - {n})), i, n, reply.Error?);
      if q.writes[i].phase.Attempting? {
        FailureStartsNothing(q, i, q.writes[i].phase.n, true);
      }
    }
    hide AttemptFails;
  }

  lemma NothingElseStarts(q: Queue, e: Event)
    requires !e.Begin? && !e.Resume?
    ensures KeepsAttempts(q, Apply(q, e))
  {
    match e {
      case CommandAnswers(i, n, reply) =>
        AnswerStartsNothing(q, i, n, reply);
        hide CommandAnswersStep;
      case TimeOut(i) =>
        AnswerStartsNothing(q, i, 0, Error);
        hide TimeOutStep;
      case _ => hide Free, Remember, Unreleased, AllAnswered;
    }
  }

  lemma SupersededStarts(q: Queue, j: Id, i: Id)
    requires i < |q.writes| && q.writes[i].superseded && (q.writes[i].phase.Admitted? ==> q.writes[i].attempts == 0)
    ensures forall t <- {BeginStep(q, j), ResumeStep(q, j)} ::
              && i < |t.writes| && t.writes[i].superseded
              && t.writes[i].attempts <= if q.writes[i].attempts == 0 then 1 else q.writes[i].attempts
  {
  }

  lemma SupersededStep(q: Queue, e: Event, i: Id)
    requires Inv(q) && i < |q.writes| && q.writes[i].superseded
    ensures var t := Apply(q, e);
            && i < |t.writes| && t.writes[i].superseded
            && t.writes[i].attempts <= if q.writes[i].attempts == 0 then 1 else q.writes[i].attempts
  {
    assert WriteInv(q.writes[i], q.maxAttempts, q.stopped);
    assert q.writes[i].phase.Admitted? ==> q.writes[i].attempts == 0;
    hide Inv, WriteInv;
    if e.Begin? || e.Resume? {
      SupersededStarts(q, e.id, i);
      hide BeginStep, ResumeStep;
    } else {
      NothingElseStarts(q, e);
      hide Apply;
    }
  }

  /** Once a newer write for its key is enqueued, a write that is not finished makes no further retry: at most its
      first attempt, which is never skipped for that. */
  lemma NewerWriteEndsRetries(q0: Queue, es: seq<Event>, more: seq<Event>, i: Id, j: Id)
    requires Initial(q0)
    requires var q := Run(q0, es); i < j < |q.writes| && q.writes[i].key == q.writes[j].key && !q.writes[i].released
    ensures var q, t := Run(q0, es), Run(Run(q0, es), more);
            i < |t.writes| && t.writes[i].attempts <= if q.writes[i].attempts == 0 then 1 else q.writes[i].attempts
  {
    InvRun(q0, es);
    SupersededRun(Run(q0, es), more, i);
    hide Run;
  }

  /** Before shutdown a caller is never answered without an attempt, and gives up on a retryable error only
      when every attempt is used up. */
  lemma NothingIsDroppedBeforeShutdown(q0: Queue, es: seq<Event>, i: Id)
    requires Initial(q0)
    ensures var q := Run(q0, es);
            !q.stopped && i < |q.writes| && q.writes[i].phase.Answered? ==>
              && Attempt(i, 1) in q.starts
              && (q.writes[i].phase.outcome == Failed(true) ==> forall n | 1 <= n <= q.maxAttempts :: Attempt(i, n) in q.starts)
  {
    InvRun(q0, es);
    var q := Run(q0, es);
    hide Run;
    if i < |q.writes| {
      assert WriteInv(q.writes[i], q.maxAttempts, q.stopped);
    }
  }

  /** After the stop switch no command is started any more. */
  lemma {:induction false} NothingStartsAfterStop(q: Queue, es: seq<Event>)
    requires q.stopped
    ensures Run(q, es).starts == q.starts && Run(q, es).stopped
    decreases |es|
  {
    if es != [] {
      assert Apply(q, es[0]).starts == q.starts && Apply(q, es[0]).stopped;
      hide Apply;
      NothingStartsAfterStop(Apply(q, es[0]), es[1..]);
    }
  }

  /** An emptied queue has handed every key on, so the store is quiet: no command is out. */
  lemma DrainedMeansQuiet(q0: Queue, es: seq<Event>, i: Id, n: nat)
    requires Initial(q0) && Unreleased(Run(q0, es).writes) == {}
    ensures !Out(Run(q0, es), i, n)
  {
    InvRun(q0, es);
    var q := Run(q0, es);
    hide Run;
    if i < |q.writes| {
      assert i !in Unreleased(q.writes);
      assert WriteInv(q.writes[i], q.maxAttempts, q.stopped);
    }
  }

  // ---- What a confirm that resolves says ----

  predicate GivenUpOn(w: Write) {
    w.phase.Answered? && (w.phase.outcome.Failed? || w.phase.outcome.Dropped?)
  }

  function GivenUp(q: Queue): set<Id> {
    set i: Id | i < |q.writes| && GivenUpOn(q.writes[i])
  }

  predicate NoReturns(es: seq<Event>) {
    forall e <- es :: !e.ReturnConfirm?
  }

  /** Answers are final, nothing leaves the queue, and an outstanding confirm keeps the writes it waits for. */
  predicate Later(q: Queue, q': Queue) {
    && |q.writes| <= |q'.writes|
    && (forall i | 0 <= i < |q.writes| ::
          && q'.writes[i].key == q.writes[i].key
          && (q.writes[i].phase.Answered? ==> q'.writes[i].phase == q.writes[i].phase))
    && (forall c <- q.confirms :: c in q'.confirms && q'.confirms[c] == q.confirms[c])
    && (q.abandoned != [] ==> q'.abandoned != [])
    && (q.abandoned == [] ==> (q'.abandoned == [] <==> GivenUp(q') == GivenUp(q)))
  }

  /** A step that gives no caller a failure. */
  predicate Quiet(q: Queue, q': Queue) {
    && |q.writes| <= |q'.writes|
    && (forall i | 0 <= i < |q.writes| ::
          && q'.writes[i].key == q.writes[i].key
          && (q.writes[i].phase.Answered? ==> q'.writes[i].phase == q.writes[i].phase)
          && (GivenUpOn(q'.writes[i]) <==> GivenUpOn(q.writes[i])))
    && (forall i | |q.writes| <= i < |q'.writes| :: !GivenUpOn(q'.writes[i]))
    && (forall c <- q.confirms :: c in q'.confirms && q'.confirms[c] == q.confirms[c])
    && q'.abandoned == q.abandoned
  }

  lemma QuietIsLater(q: Queue, q': Queue)
    requires Quiet(q, q')
    ensures Later(q, q')
  {
    assert GivenUp(q') == GivenUp(q);
  }

  lemma AnswerIsLater(q: Queue, i: Id, outcome: Outcome)
    requires i < |q.writes| && !q.writes[i].phase.Answered?
    ensures Later(q, AnswerCaller(q, i, outcome))
  {
    var q' := AnswerCaller(q, i, outcome);
    if outcome.Failed? || outcome.Dropped? {
      assert i in GivenUp(q') && i !in GivenUp(q);
      hide GivenUp;
    } else {
      assert Quiet(q, q');
      QuietIsLater(q, q');
      hide Later, Quiet;
    }
  }

  lemma FailureIsLater(q: Queue, i: Id, n: nat, retryable: bool)
    requires i < |q.writes| && !q.writes[i].phase.Answered?
    ensures Later(q, AttemptFails(q, i, n, retryable))
  {
    var q1 := Put(q, i, q.writes[i].(phase := BackingOff(n)));
    QuietIsLater(q, q1);
    AnswerIsLater(q, i, Failed(retryable));
    AnswerIsLater(q, i, Superseded);
    hide Later, Quiet, AnswerCaller;
  }

  lemma CommandAnswersIsLater(q: Queue, i: Id, n: nat, reply: Reply)
    ensures Later(q, CommandAnswersStep(q, i, n, reply))
  {
    QuietIsLater(q, q);
    if i < |q.writes| && n in q.writes[i].out {
      var q1 := Put(q, i, q.writes[i].(out := q.writes[i].out - {n}));
      QuietIsLater(q, q1);
      var q2 := CommandAnswersStep(q, i, n, reply);
      if q.writes[i].phase == Attempting(n) {
        FailureIsLater(q1, i, n, reply.Error?);
        AnswerIsLater(q1, i, Landed);
        hide Later, Quiet, AnswerCaller, AttemptFails;
        LaterTrans(q, q1, q2);
      }
    }
    hide Later, Quiet, AnswerCaller, AttemptFails;
  }

  lemma PutIsLater(q: Queue, i: Id, w: Write, starts: seq<Attempt>)
    requires i < |q.writes| && w.key == q.writes[i].key
    requires w.phase == q.writes[i].phase || !(w.phase.Answered? || q.writes[i].phase.Answered?)
    ensures Later(q, Put(q, i, w).(starts := starts))
  {
    QuietIsLater(q, Put(q, i, w).(starts := starts));
    hide Later;
  }

  lemma TurnIsLater(q: Queue, i: Id)
    ensures Later(q, PassGateStep(q, i)) && Later(q, WakeStep(q, i))
  {
    QuietIsLater(q, q);
    if i < |q.writes| {
      var w := q.writes[i];
      if w.phase.Waiting? {
        AnswerIsLater(q, i, Dropped);
        PutIsLater(q, i, w.(phase := Admitted), q.starts);
      } else if w.phase.BackingOff? {
        PutIsLater(q, i, w.(phase := Settling(w.phase.n)), q.starts);
      }
    }
    hide Later, Quiet, AnswerCaller, Free;
  }

  lemma AttemptIsLater(q: Queue, i: Id)
    ensures Later(q, BeginStep(q, i)) && Later(q, ResumeStep(q, i))
  {
    QuietIsLater(q, q);
    if i < |q.writes| && (q.writes[i].phase.Admitted? || q.writes[i].phase.Settling?) {
      AnswerIsLater(q, i, Dropped);
      AnswerIsLater(q, i, Superseded);
      AnswerIsLater(q, i, Failed(true));
      PutIsLater(q, i, StartAttempt(q, i).writes[i], StartAttempt(q, i).starts);
      assert StartAttempt(q, i) == Put(q, i, StartAttempt(q, i).writes[i]).(starts := StartAttempt(q, i).starts);
    }
    hide Later, Quiet, AnswerCaller, StartAttempt;
  }

  lemma TimeOutIsLater(q: Queue, i: Id)
    ensures Later(q, TimeOutStep(q, i))
  {
    QuietIsLater(q, q);
    if i < |q.writes| && q.writes[i].phase.Attempting? {
      FailureIsLater(q, i, q.writes[i].phase.n, true);
    }
    hide Later, AttemptFails;
  }

  lemma EnqueueIsLater(q: Queue, key: Key)
    ensures Later(q, EnqueueStep(q, key))
  {
    QuietIsLater(q, EnqueueStep(q, key));
    hide Later;
  }

  lemma ReleaseIsLater(q: Queue, i: Id)
    ensures Later(q, ReleaseStep(q, i))
  {
    QuietIsLater(q, ReleaseStep(q, i));
    hide Later, Free;
  }

  lemma CallIsLater(q: Queue, c: ConfirmId)
    ensures Later(q, CallConfirmStep(q, c)) && Later(q, q.(stopped := true))
  {
    QuietIsLater(q, CallConfirmStep(q, c));
    QuietIsLater(q, q.(stopped := true));
    hide Later, Unreleased;
  }

  lemma LaterStep(q: Queue, e: Event)
    requires !e.ReturnConfirm?
    ensures Later(q, Apply(q, e))
  {
    hide Later, EnqueueStep, PassGateStep, BeginStep, CommandAnswersStep, TimeOutStep, WakeStep, ResumeStep, ReleaseStep, CallConfirmStep;
    match e {
      case Enqueue(key) => EnqueueIsLater(q, key);
      case PassGate(i) => TurnIsLater(q, i);
      case Begin(i) => AttemptIsLater(q, i);
      case CommandAnswers(i, n, reply) => CommandAnswersIsLater(q, i, n, reply);
      case TimeOut(i) => TimeOutIsLater(q, i);
      case Wake(i) => TurnIsLater(q, i);
      case Resume(i) => AttemptIsLater(q, i);
      case Release(i) => ReleaseIsLater(q, i);
      case StopRetrying => CallIsLater(q, 0);
      case CallConfirm(c) => CallIsLater(q, c);
    }
  }

  lemma LaterTrans(q: Queue, q1: Queue, q2: Queue)
    requires Later(q, q1) && Later(q1, q2)
    ensures Later(q, q2)
  {
  }

  lemma {:induction false} LaterRun(q: Queue, es: seq<Event>)
    requires NoReturns(es)
    ensures Later(q, Run(q, es))
    decreases |es|
  {
    if es != [] {
      LaterStep(q, es[0]);
      hide Later, Apply;
      LaterRun(Apply(q, es[0]), es[1..]);
      LaterTrans(q, Apply(q, es[0]), Run(q, es));
    }
  }

  /** With nothing remembered at the start, and however many writes are given up on, a confirm resolves exactly
      when every write it waits for is answered and none was given up on since. */
  lemma ResolvesIffNothingGivenUp(q: Queue, es: seq<Event>, c: ConfirmId)
    requires q.abandoned == [] && NoReturns(es)
    ensures var t := Run(q, es); Resolves(t, c) <==> CanReturn(t, c) && GivenUp(t) == GivenUp(q)
  {
    LaterRun(q, es);
    hide Run, CanReturn, GivenUp;
  }

  // ---- Confirms that overlap ----

  /** Answers are final and nothing leaves the queue, whichever confirms return. */
  predicate Lasting(q: Queue, q': Queue) {
    && |q.writes| <= |q'.writes|
    && forall i | 0 <= i < |q.writes| ::
         && q'.writes[i].key == q.writes[i].key
         && (q.writes[i].phase.Answered? ==> q'.writes[i].phase == q.writes[i].phase)
  }

  lemma LastingStep(q: Queue, e: Event)
    ensures Lasting(q, Apply(q, e))
  {
    if !e.ReturnConfirm? {
      LaterStep(q, e);
      hide Apply;
    }
  }

  lemma {:induction false} LastingRun(q: Queue, es: seq<Event>)
    ensures Lasting(q, Run(q, es)) && GivenUp(q) <= GivenUp(Run(q, es))
    decreases |es|
  {
    if es != [] {
      LastingStep(q, es[0]);
      hide Apply;
      LastingRun(Apply(q, es[0]), es[1..]);
    }
  }

  /** The event makes a confirm return, which empties the list of failures. */
  predicate Returns(q: Queue, e: Event) {
    e.ReturnConfirm? && CanReturn(q, e.confirm)
  }

  /** Some confirm returned at step `k`, after every failure there is. */
  predicate ReturnedAfterAll(q: Queue, es: seq<Event>, k: nat) {
    k < |es| && Returns(Run(q, es[..k]), es[k]) && GivenUp(Run(q, es[..k])) == GivenUp(Run(q, es))
  }

  predicate SomeReturnedAfterAll(q: Queue, es: seq<Event>) {
    exists k | 0 <= k < |es| :: ReturnedAfterAll(q, es, k)
  }

  lemma ReturnedUnfolds(q: Queue, es: seq<Event>)
    requires es != []
    ensures SomeReturnedAfterAll(q, es) <==>
              || (Returns(q, es[0]) && GivenUp(q) == GivenUp(Run(q, es)))
              || SomeReturnedAfterAll(Apply(q, es[0]), es[1..])
  {
    hide Apply, Returns, GivenUp;
    var q1 := Apply(q, es[0]);
    assert es[..0] == [];
    forall k | 0 <= k < |es[1..]|
      ensures ReturnedAfterAll(q1, es[1..], k) <==> ReturnedAfterAll(q, es, k + 1)
    {
      assert es[..k + 1][1..] == es[1..][..k];
    }
    if SomeReturnedAfterAll(q, es) {
      var k :| 0 <= k < |es| && ReturnedAfterAll(q, es, k);
      if k > 0 {
        assert ReturnedAfterAll(q1, es[1..], k - 1);
      }
    } else {
      assert !ReturnedAfterAll(q, es, 0);
    }
  }

  /** In every run, overlapping confirms included, no failure is remembered exactly when none was given up on since
      the start or since some confirm returned. */
  lemma {:induction false} NothingRememberedIff(q: Queue, es: seq<Event>)
    ensures Run(q, es).abandoned == [] <==>
              (q.abandoned == [] && GivenUp(Run(q, es)) == GivenUp(q)) || SomeReturnedAfterAll(q, es)
    decreases |es|
  {
    if es != [] {
      var q1 := Apply(q, es[0]);
      ReturnedUnfolds(q, es);
      NothingRememberedIff(q1, es[1..]);
      LastingRun(q, [es[0]]);
      RunOne(q, es[0]);
      LastingRun(q1, es[1..]);
      if es[0].ReturnConfirm? {
        assert q1.writes == q.writes;
        assert GivenUp(q1) == GivenUp(q);
      } else {
        LaterStep(q, es[0]);
      }
      hide Apply, Run, GivenUp, SomeReturnedAfterAll;
    }
  }

  lemma RunOne(q: Queue, e: Event)
    ensures Run(q, [e]) == Apply(q, e)
  {
    hide Apply;
    assert [e][1..] == [];
  }

  /** A confirm that can return although a write was given up on resolves exactly when another confirm returned
      after that failure and nothing failed since. */
  lemma ResolvesOverFailureIff(q: Queue, es: seq<Event>, c: ConfirmId, i: Id)
    requires CanReturn(Run(q, es), c) && i in GivenUp(Run(q, es)) && i !in GivenUp(q)
    ensures Resolves(Run(q, es), c) <==>
              exists k | 0 <= k < |es| ::
                && Returns(Run(q, es[..k]), es[k])
                && i in GivenUp(Run(q, es[..k])) && GivenUp(Run(q, es[..k])) == GivenUp(Run(q, es))
  {
    NothingRememberedIff(q, es);
    hide Run, GivenUp, Returns, CanReturn;
    forall k | 0 <= k < |es| && Returns(Run(q, es[..k]), es[k]) && GivenUp(Run(q, es[..k])) == GivenUp(Run(q, es))
      ensures ReturnedAfterAll(q, es, k)
    {
    }
    if SomeReturnedAfterAll(q, es) {
      var k :| 0 <= k < |es| && ReturnedAfterAll(q, es, k);
      assert i in GivenUp(Run(q, es[..k]));
    }
  }

  predicate NewestFor(q: Queue, i: Id) {
    i < |q.writes| && forall j | i < j < |q.writes| :: q.writes[j].key != q.writes[i].key
  }

  /** What became of the newest write of a key that was enqueued before the call: it landed, a write enqueued
      during the call took over, or an earlier confirm already answered for it. */
  predicate Accounted(last: Queue, called: Queue, now: Queue, i: Id) {
    i < |now.writes| &&
    (|| now.writes[i].phase == Answered(Landed)
     || (i in GivenUp(last) && GivenUpOn(now.writes[i]))
     || (now.writes[i].phase == Answered(Superseded)
         && exists j | |called.writes| <= j < |now.writes| :: now.writes[j].key == now.writes[i].key))
  }

  /** With one confirm outstanding. `last` is a moment when no failure was remembered, as right after the previous
      confirm returned; `called` is where this one is called and `now` where it resolves. */
  lemma ConfirmMeansWritten(q0: Queue, before: seq<Event>, between: seq<Event>, during: seq<Event>, c: ConfirmId, i: Id)
    requires Initial(q0) && NoReturns(between) && NoReturns(during)
    requires Run(q0, before).abandoned == []
    requires c !in Run(Run(q0, before), between).confirms
    ensures var last := Run(q0, before);
            var called := Run(last, between);
            var now := Run(Apply(called, CallConfirm(c)), during);
            Resolves(now, c) ==>
              && GivenUp(now) == GivenUp(last)
              && (i < |called.writes| ==> i < |now.writes| && now.writes[i].phase.Answered?)
              && (NewestFor(called, i) ==> Accounted(last, called, now, i))
              && (NewestFor(called, i) && now.writes[i].phase == Answered(Landed) ==>
                    EverWritten(q0, before + (between + ([CallConfirm(c)] + during)), i))
  {
    RunOfAll(q0, before, between, during, c);
    LandedIffWritten(q0, before + (between + ([CallConfirm(c)] + during)), i);
    hide EverWritten;
    hide Run, Apply, Inv, Later;
    var last := Run(q0, before);
    var called := Run(last, between);
    var asked := Apply(called, CallConfirm(c));
    var now := Run(asked, during);
    InvAtStart(q0);
    InvRun(q0, before);
    InvRun(last, between);
    CallKeeps(called, c);
    InvRun(asked, during);
    LaterRun(last, between);
    LaterRun(asked, during);
    if Resolves(now, c) {
      ResolvedMeansWritten(last, called, asked, now, c, i);
    }
  }

  lemma ConfirmStays(q: Queue, e: Event, c: ConfirmId)
    requires c in q.confirms && e != ReturnConfirm(c)
    ensures c in Apply(q, e).confirms && Apply(q, e).confirms[c] == q.confirms[c]
  {
    if !e.ReturnConfirm? {
      LaterStep(q, e);
      hide Apply;
    }
  }

  lemma {:induction false} ConfirmStaysRun(q: Queue, es: seq<Event>, c: ConfirmId)
    requires c in q.confirms && ReturnConfirm(c) !in es
    ensures c in Run(q, es).confirms && Run(q, es).confirms[c] == q.confirms[c]
    decreases |es|
  {
    if es != [] {
      ConfirmStays(q, es[0], c);
      hide Apply;
      ConfirmStaysRun(Apply(q, es[0]), es[1..], c);
    }
  }

  lemma {:induction false} RunConcat(q: Queue, a: seq<Event>, b: seq<Event>)
    ensures Run(q, a + b) == Run(Run(q, a), b)
    decreases |a|
  {
    hide Apply;
    if a == [] {
      assert a + b == b;
    } else {
      assert (a + b)[1..] == a[1..] + b;
      RunConcat(Apply(q, a[0]), a[1..], b);
    }
  }

  /** The newest write of a key before the call landed, was taken over by one enqueued during the call, or failed
      before some confirm returned after which nothing failed. */
  predicate AccountedOverlapping(q0: Queue, all: seq<Event>, called: Queue, i: Id) {
    var now := Run(q0, all);
    i < |now.writes| &&
    (|| now.writes[i].phase == Answered(Landed)
     || (GivenUpOn(now.writes[i]) && SomeReturnedAfterAll(q0, all))
     || (now.writes[i].phase == Answered(Superseded)
         && exists j | |called.writes| <= j < |now.writes| :: now.writes[j].key == now.writes[i].key))
  }

  /** With any number of confirms outstanding. */
  lemma OverlappingConfirmMeansWritten(q0: Queue, before: seq<Event>, during: seq<Event>, c: ConfirmId, i: Id)
    requires Initial(q0) && c !in Run(q0, before).confirms && ReturnConfirm(c) !in during
    ensures var called := Run(q0, before);
            var all := before + ([CallConfirm(c)] + during);
            Resolves(Run(q0, all), c) ==>
              && (i < |called.writes| ==> i < |Run(q0, all).writes| && Run(q0, all).writes[i].phase.Answered?)
              && (NewestFor(called, i) ==> AccountedOverlapping(q0, all, called, i))
              && (NewestFor(called, i) && Run(q0, all).writes[i].phase == Answered(Landed) ==> EverWritten(q0, all, i))
  {
    LandedIffWritten(q0, before + ([CallConfirm(c)] + during), i);
    hide EverWritten;
    hide Apply, Inv, Lasting, SomeReturnedAfterAll, Resolves, GivenUp;
    var called := Run(q0, before);
    var asked := Apply(called, CallConfirm(c));
    var all := before + ([CallConfirm(c)] + during);
    RunConcat(q0, before, [CallConfirm(c)] + during);
    RunConcat(called, [CallConfirm(c)], during);
    RunOne(called, CallConfirm(c));
    var now := Run(asked, during);
    assert Run(q0, all) == now;
    hide Run;
    InvAtStart(q0);
    InvRun(q0, before);
    CallKeeps(called, c);
    InvRun(asked, during);
    LastingRun(asked, during);
    ConfirmStaysRun(asked, during, c);
    NothingRememberedIff(q0, all);
    if Resolves(now, c) {
      OverlappingResolved(q0, all, called, asked, now, c, i);
    }
  }

  lemma OverlappingResolved(q0: Queue, all: seq<Event>, called: Queue, asked: Queue, now: Queue, c: ConfirmId, i: Id)
    requires Initial(q0) && now == Run(q0, all) && Inv(called) && Inv(now) && Lasting(asked, now) && Resolves(now, c)
    requires asked.(confirms := called.confirms) == called && c in asked.confirms && asked.confirms[c] == Unreleased(called.writes)
    requires now.confirms[c] == asked.confirms[c]
    requires now.abandoned == [] ==> GivenUp(now) == GivenUp(q0) || SomeReturnedAfterAll(q0, all)
    ensures i < |called.writes| ==> i < |now.writes| && now.writes[i].phase.Answered?
    ensures NewestFor(called, i) ==> AccountedOverlapping(q0, all, called, i)
  {
    hide Run, SomeReturnedAfterAll;
    if i < |called.writes| {
      assert WriteInv(called.writes[i], called.maxAttempts, called.stopped);
      assert WriteInv(now.writes[i], now.maxAttempts, now.stopped);
      hide LinksInv, ChainsInv, StartsInv, WritesInv;
      assert i in Unreleased(called.writes) || called.writes[i].phase.Answered?;
      assert now.writes[i].phase.Answered?;
      if NewestFor(called, i) && now.writes[i].phase.outcome.Superseded? {
        HeirIsLater(called, now, i);
      } else if GivenUpOn(now.writes[i]) {
        assert i in GivenUp(now) && i !in GivenUp(q0);
      }
    }
  }

  lemma RunOfAll(q0: Queue, before: seq<Event>, between: seq<Event>, during: seq<Event>, c: ConfirmId)
    ensures Run(q0, before + (between + ([CallConfirm(c)] + during))) ==
            Run(Apply(Run(Run(q0, before), between), CallConfirm(c)), during)
  {
    hide Run, Apply;
    var called := Run(Run(q0, before), between);
    RunConcat(q0, before, between + ([CallConfirm(c)] + during));
    RunConcat(Run(q0, before), between, [CallConfirm(c)] + during);
    RunConcat(called, [CallConfirm(c)], during);
    RunOne(called, CallConfirm(c));
  }

  lemma CallKeeps(q: Queue, c: ConfirmId)
    requires Inv(q) && c !in q.confirms
    ensures var asked := Apply(q, CallConfirm(c));
            Inv(asked) && asked.(confirms := q.confirms) == q && c in asked.confirms && asked.confirms[c] == Unreleased(q.writes)
  {
    hide WritesInv, LinksInv, ChainsInv, HeirsInv, StartsInv;
  }

  lemma ResolvedMeansWritten(last: Queue, called: Queue, asked: Queue, now: Queue, c: ConfirmId, i: Id)
    requires Inv(called) && Inv(now) && Later(last, called) && Later(asked, now)
    requires last.abandoned == [] && Resolves(now, c)
    requires asked.(confirms := called.confirms) == called && c in asked.confirms && asked.confirms[c] == Unreleased(called.writes)
    ensures GivenUp(now) == GivenUp(last)
    ensures i < |called.writes| ==> i < |now.writes| && now.writes[i].phase.Answered?
    ensures NewestFor(called, i) ==> Accounted(last, called, now, i)
  {
    assert GivenUp(now) == GivenUp(asked) == GivenUp(called) == GivenUp(last);
    if i < |called.writes| {
      assert WriteInv(called.writes[i], called.maxAttempts, called.stopped);
      assert WriteInv(now.writes[i], now.maxAttempts, now.stopped);
      assert i in Unreleased(called.writes) || called.writes[i].phase.Answered?;
      hide LinksInv, ChainsInv, StartsInv, WritesInv;
      assert now.writes[i].phase.Answered?;
      if NewestFor(called, i) && now.writes[i].phase.outcome.Superseded? {
        HeirIsLater(called, now, i);
      } else if GivenUpOn(now.writes[i]) {
        assert i in GivenUp(now);
      }
    }
  }

  lemma HeirIsLater(called: Queue, now: Queue, i: Id)
    requires NewestFor(called, i) && HeirsInv(now.writes) && |called.writes| <= |now.writes| && now.writes[i].superseded
    requires forall j | 0 <= j < |called.writes| :: now.writes[j].key == called.writes[j].key
    ensures exists j | |called.writes| <= j < |now.writes| :: now.writes[j].key == now.writes[i].key
  {
    assert HasHeir(now.writes, i);
    var j :| i < j < |now.writes| && now.writes[j].key == now.writes[i].key;
    assert j >= |called.writes|;
  }

  lemma OneAttemptUnderTwoConfirms(q0: Queue, key: Key) returns (q: Queue)
    requires Initial(q0)
    ensures q == Run(q0, [Enqueue(key), PassGate(0), Begin(0), CallConfirm(1), CallConfirm(2)])
    ensures q.writes == [Write(key, None, false, Attempting(1), 1, {1}, false)] && q.abandoned == []
    ensures q.confirms == map[1 := {0}, 2 := {0}]
  {
    var q1 := EnqueueStep(q0, key);
    assert q1.writes == [Write(key, None, false, Waiting, 0, {}, false)];
    var q2 := PassGateStep(q1, 0);
    assert q2.writes == [Write(key, None, false, Admitted, 0, {}, false)];
    var q3 := BeginStep(q2, 0);
    assert {} + {1} == {1};
    assert q3.writes[0] == Write(key, None, false, Attempting(1), 1, {1}, false);
    assert Unreleased(q3.writes) == {0};
    q := CallConfirmStep(CallConfirmStep(q3, 1), 2);
    assert q.confirms == map[1 := {0}, 2 := {0}];
    hide EnqueueStep, PassGateStep, BeginStep, CallConfirmStep, Run;
    RunFive(q0, Enqueue(key), PassGate(0), Begin(0), CallConfirm(1), CallConfirm(2));
  }

  /** Two confirms at once share one list of failures: the first to return takes a failure both waited for, and
      the second resolves over it. */
  lemma OverlappingConfirmsShareFailures(q0: Queue, key: Key)
    requires Initial(q0)
    ensures var called := Run(q0, [Enqueue(key), PassGate(0), Begin(0), CallConfirm(1), CallConfirm(2)]);
            var now := Run(called, [CommandAnswers(0, 1, NonRetryable), ReturnConfirm(1)]);
            && called.confirms == map[1 := {0}, 2 := {0}] && 0 !in GivenUp(called)
            && Resolves(now, 2) && |now.writes| == 1 && now.writes[0].phase == Answered(Failed(false))
  {
    hide Run;
    var called := OneAttemptUnderTwoConfirms(q0, key);
    var q6 := CommandAnswersStep(called, 0, 1, NonRetryable);
    assert {1} - {1} == {};
    assert q6.writes[0] == Write(key, None, false, Answered(Failed(false)), 1, {}, false);
    assert q6.writes == [Write(key, None, false, Answered(Failed(false)), 1, {}, false)];
    var q7 := ReturnConfirmStep(q6, 1);
    assert q7.confirms == map[2 := {0}] && q7.abandoned == [];
    RunTwo(called, CommandAnswers(0, 1, NonRetryable), ReturnConfirm(1));
  }

  lemma RunTwo(q: Queue, a: Event, b: Event)
    ensures Run(q, [a, b]) == Apply(Apply(q, a), b)
  {
    hide Apply;
    assert [a, b][1..] == [b];
    assert Run(q, [a, b]) == Run(Apply(q, a), [b]);
    assert [b][1..] == [];
    assert Run(Apply(q, a), [b]) == Run(Apply(Apply(q, a), b), []);
  }

  lemma RunFive(q: Queue, a: Event, b: Event, c: Event, d: Event, e: Event)
    ensures Run(q, [a, b, c, d, e]) == Apply(Apply(Apply(Apply(Apply(q, a), b), c), d), e)
  {
    hide Apply;
    assert [a, b, c, d, e][1..] == [b, c, d, e];
    assert [b, c, d, e][1..] == [c, d, e];
    assert [c, d, e][1..] == [d, e];
    var q1, q2 := Apply(q, a), Apply(Apply(q, a), b);
    assert Run(q, [a, b, c, d, e]) == Run(q1, [b, c, d, e]) == Run(q2, [c, d, e]) == Run(Apply(q2, c), [d, e]);
    RunTwo(Apply(Apply(Apply(q, a), b), c), d, e);
  }
}
