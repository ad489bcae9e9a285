/**
 * The analytics wrapper's queue (packages/sdk/src/client.ts): emits push, flush calls chain, one batch
 * at a time is posted and retried. Every await is a step boundary, so emits and flush calls may come
 * between any two of the steps here.
 */
module SdkClient {
  import opened Wrappers

  /** id is the acceptance number; it stands for the random event_id. */
  datatype Event = Event(id: nat, payload: string)

  datatype Options = Options(disabled: bool, devValidate: bool, maxBatch: int, maxBuffered: int, maxRetries: int)

  /** A batch taken off the queue and the attempt it is on. */
  datatype Flight = Flight(batch: seq<Event>, attempt: nat)

  /** The closure's variables, and an account of what became of every accepted event. */
  datatype ClientState = ClientState(
    queue: seq<Event>,
    flight: Option<Flight>,
    flushing: bool,
    waiting: nat,
    accepted: seq<Event>,
    delivered: seq<Event>,
    gaveUp: seq<Event>,
    overflowed: seq<Event>)

  const START := ClientState([], None, false, 0, [], [], [], [])

  function Enqueued(o: Options, s: ClientState, payload: string, valid: bool): ClientState {
    if o.disabled || (o.devValidate && !valid) then s
    else
      var event := Event(|s.accepted|, payload);
      var pushed := s.(queue := s.queue + [event], accepted := s.accepted + [event]);
      if |pushed.queue| > o.maxBuffered
      then pushed.(queue := pushed.queue[1..], overflowed := s.overflowed + [pushed.queue[0]])
      else pushed
  }

  function FlushCalled(s: ClientState): ClientState {
    s.(waiting := s.waiting + 1)
  }

  /** splice(0, maxBatch). */
  function BatchSize(o: Options, queued: nat): (n: nat)
    ensures n <= queued
  {
    if o.maxBatch < 0 then 0 else if o.maxBatch < queued then o.maxBatch else queued
  }

  /** With no attempt left the batch is dropped. */
  function OrGiveUp(o: Options, s: ClientState, flight: Flight): ClientState {
    if flight.attempt <= o.maxRetries then s.(flight := Some(flight))
    else s.(flight := None, gaveUp := s.gaveUp + flight.batch)
  }

  /** The next turn of the flush chain: start a waiting flush, take a batch, or finish. */
  function Turned(o: Options, s: ClientState): ClientState {
    if s.flight.Some? then s
    else if !s.flushing then
      if s.waiting == 0 then s else s.(flushing := true, waiting := s.waiting - 1)
    else if s.queue == [] then s.(flushing := false)
    else
      var n := BatchSize(o, |s.queue|);
      OrGiveUp(o, s.(queue := s.queue[n..]), Flight(s.queue[..n], 0))
  }

  /** A POST of the batch in flight answers with a success status, or it does not. */
  function Attempted(o: Options, s: ClientState, ok: bool): ClientState {
    match s.flight
    case None => s
    case Some(f) =>
      if ok then s.(flight := None, delivered := s.delivered + f.batch)
      else OrGiveUp(o, s, Flight(f.batch, f.attempt + 1))
  }

  class ToqarClient {
    const o: Options
    var queue: seq<Event>
    var flight: Option<Flight>
    var flushing: bool
    var waiting: nat
    ghost var accepted: seq<Event>
    ghost var delivered: seq<Event>
    ghost var gaveUp: seq<Event>
    ghost var overflowed: seq<Event>
    var nextId: nat

    ghost function State(): ClientState
      reads this
    {
      ClientState(queue, flight, flushing, waiting, accepted, delivered, gaveUp, overflowed)
    }

    ghost predicate Valid()
      reads this
    {
      nextId == |accepted|
    }

    constructor (o: Options)
      ensures this.o == o && Valid() && State() == START
    {
      this.o := o;
      queue, flight, flushing, waiting, nextId := [], None, false, 0, 0;
      accepted, delivered, gaveUp, overflowed := [], [], [], [];
    }

    method Enqueue(payload: string, valid: bool)
      requires Valid()
      modifies this
      ensures Valid() && State() == Enqueued(o, old(State()), payload, valid)
    {
      if o.disabled {
        return;
      }
      if o.devValidate && !valid {
        return;
      }
      var event := Event(nextId, payload);
      nextId := nextId + 1;
      queue := queue + [event];
      accepted := accepted + [event];
      if |queue| > o.maxBuffered {
        overflowed := overflowed + [queue[0]];
        queue := queue[1..];
      }
    }

    method Flush()
      requires Valid()
      modifies this
      ensures Valid() && State() == FlushCalled(old(State()))
    {
      waiting := waiting + 1;
    }

    method Turn()
      requires Valid()
      modifies this
      ensures Valid() && State() == Turned(o, old(State()))
    {
      if flight.Some? {
        return;
      }
      if !flushing {
        if 0 < waiting {
          flushing, waiting := true, waiting - 1;
        }
        return;
      }
      if |queue| == 0 {
        flushing := false;
        return;
      }
      var n := BatchSize(o, |queue|);
      var batch := queue[..n];
      queue := queue[n..];
      if 0 <= o.maxRetries {
        flight := Some(Flight(batch, 0));
      } else {
        gaveUp := gaveUp + batch;
      }
    }

    method Attempt(ok: bool)
      requires Valid()
      modifies this
      ensures Valid() && State() == Attempted(o, old(State()), ok)
    {
      if flight.None? {
        return;
      }
      var f := flight.value;
      if ok {
        delivered := delivered + f.batch;
        flight := None;
        return;
      }
      if f.attempt + 1 <= o.maxRetries {
        flight := Some(Flight(f.batch, f.attempt + 1));
      } else {
        gaveUp := gaveUp + f.batch;
        flight := None;
      }
    }
  }

  /* ---------------- runs ---------------- */

  datatype Step = Emit(payload: string, valid: bool) | FlushCall | Turn | Attempt(ok: bool)

  function Next(o: Options, s: ClientState, step: Step): ClientState {
    match step
    case Emit(payload, valid) => Enqueued(o, s, payload, valid)
    case FlushCall => FlushCalled(s)
    case Turn => Turned(o, s)
    case Attempt(ok) => Attempted(o, s, ok)
  }

  function Run(o: Options, s: ClientState, steps: seq<Step>): ClientState {
    if steps == [] then s else Next(o, Run(o, s, steps[..|steps| - 1]), steps[|steps| - 1])
  }

  ghost predicate Increasing(s: seq<Event>) {
    forall i, j | 0 <= i < j < |s| :: s[i].id < s[j].id
  }

  ghost predicate AllBelow(s: seq<Event>, bound: int) {
    forall i | 0 <= i < |s| :: s[i].id < bound
  }

  ghost predicate AllFrom(s: seq<Event>, bound: int) {
    forall i | 0 <= i < |s| :: bound <= s[i].id
  }

  function InFlight(s: ClientState): seq<Event> {
    if s.flight.Some? then s.flight.value.batch else []
  }

  /** Acceptance numbers start at zero and count up. */
  ghost predicate Numbered(accepted: seq<Event>) {
    forall i | 0 <= i < |accepted| :: accepted[i].id == i
  }

  /** Every accepted event is in exactly one place. */
  ghost predicate Accounted(s: ClientState) {
    multiset(s.accepted)
      == multiset(s.delivered) + multiset(s.gaveUp) + multiset(s.overflowed) + multiset(InFlight(s)) + multiset(s.queue)
  }

  /** The queue is the newest end of what was accepted. */
  ghost predicate QueueIsNewest(s: ClientState) {
    |s.queue| <= |s.accepted| && s.queue == s.accepted[|s.accepted| - |s.queue|..]
  }

  /** What is out of the queue came before what is in it, and what is settled before what is in flight. */
  ghost predicate InOrder(s: ClientState) {
    var oldest := |s.accepted| - |s.queue|;
    var settled := if InFlight(s) == [] then oldest else InFlight(s)[0].id;
    && Increasing(InFlight(s)) && AllBelow(InFlight(s), oldest)
    && Increasing(s.delivered) && AllBelow(s.delivered, settled)
    && Increasing(s.gaveUp) && AllBelow(s.gaveUp, settled)
  }

  function AtLeastZero(n: int): nat {
    if n < 0 then 0 else n
  }

  ghost predicate Bounded(o: Options, s: ClientState) {
    |s.queue| <= AtLeastZero(o.maxBuffered) && |InFlight(s)| <= AtLeastZero(o.maxBatch)
  }

  ghost predicate Conserved(o: Options, s: ClientState) {
    && Numbered(s.accepted) && Accounted(s) && QueueIsNewest(s) && InOrder(s) && Bounded(o, s)
  }

  ghost predicate Inv(o: Options, s: ClientState) {
    && Conserved(o, s)
    && (s.flight.Some? ==> s.flushing && s.flight.value.attempt <= o.maxRetries)
  }

  lemma {:induction false} TakeSplits(s: seq<Event>, n: nat)
    requires n <= |s|
    ensures multiset(s) == multiset(s[..n]) + multiset(s[n..])
  {
    assert s == s[..n] + s[n..];
  }

  /** One event comes in, one goes over from the queue to the overflowed. */
  lemma {:induction false} Shifted(all: multiset<Event>, settled: multiset<Event>, overflowed: multiset<Event>,
                                   flight: multiset<Event>, queue: multiset<Event>, rest: multiset<Event>,
                                   event: Event, oldest: Event)
    requires all == settled + overflowed + flight + queue
    requires multiset{oldest} + rest == queue + multiset{event}
    ensures all + multiset{event} == settled + (overflowed + multiset{oldest}) + flight + rest
  {
    assert all + multiset{event} == settled + overflowed + flight + (queue + multiset{event});
  }

  lemma {:induction false} EmitAccounts(o: Options, s: ClientState, payload: string, valid: bool)
    requires Accounted(s)
    ensures Accounted(Enqueued(o, s, payload, valid))
  {
    var after := Enqueued(o, s, payload, valid);
    var event := Event(|s.accepted|, payload);
    var queue := s.queue + [event];
    if after.overflowed != s.overflowed {
      assert after.overflowed == s.overflowed + [queue[0]];
      TakeSplits(queue, 1);
      assert queue[..1] == [queue[0]];
      Shifted(multiset(s.accepted), multiset(s.delivered) + multiset(s.gaveUp), multiset(s.overflowed),
              multiset(InFlight(s)), multiset(s.queue), multiset(after.queue), event, queue[0]);
    }
  }

  lemma {:induction false} EmitIsNewest(o: Options, s: ClientState, payload: string, valid: bool)
    requires QueueIsNewest(s)
    ensures QueueIsNewest(Enqueued(o, s, payload, valid))
  {
  }

  lemma {:induction false} EmitStaysInOrder(o: Options, s: ClientState, payload: string, valid: bool)
    requires InOrder(s) && QueueIsNewest(s)
    ensures InOrder(Enqueued(o, s, payload, valid))
  {
    var after := Enqueued(o, s, payload, valid);
    assert |s.accepted| - |s.queue| <= |after.accepted| - |after.queue|;
    assert InFlight(after) == InFlight(s);
  }

  lemma {:induction false} EmitStaysBounded(o: Options, s: ClientState, payload: string, valid: bool)
    requires Bounded(o, s) && Numbered(s.accepted)
    ensures Bounded(o, Enqueued(o, s, payload, valid)) && Numbered(Enqueued(o, s, payload, valid).accepted)
  {
  }

  lemma {:induction false} EmitKeepsInv(o: Options, s: ClientState, payload: string, valid: bool)
    requires Inv(o, s)
    ensures Inv(o, Enqueued(o, s, payload, valid))
  {
    EmitAccounts(o, s, payload, valid);
    EmitIsNewest(o, s, payload, valid);
    EmitStaysInOrder(o, s, payload, valid);
    EmitStaysBounded(o, s, payload, valid);
    EmitTouchesNoFlight(o, s, payload, valid);
  }

  lemma {:induction false} EmitTouchesNoFlight(o: Options, s: ClientState, payload: string, valid: bool)
    ensures var after := Enqueued(o, s, payload, valid);
            after.flight == s.flight && after.flushing == s.flushing
  {
  }

  lemma {:induction false} GiveUpConserves(o: Options, s: ClientState, flight: Flight)
    requires s.flushing && Conserved(o, s.(flight := Some(flight)))
    ensures Inv(o, OrGiveUp(o, s, flight))
  {
    var before, after := s.(flight := Some(flight)), OrGiveUp(o, s, flight);
    if after.flight.None? {
      assert multiset(s.gaveUp + flight.batch) == multiset(s.gaveUp) + multiset(flight.batch);
      SettleInOrder(s.gaveUp, flight.batch, before);
    }
  }

  /** Settling the batch in flight keeps its list increasing and below the queue. */
  lemma {:induction false} SettleInOrder(settled: seq<Event>, batch: seq<Event>, s: ClientState)
    requires InOrder(s) && InFlight(s) == batch && QueueIsNewest(s)
    requires settled == s.delivered || settled == s.gaveUp
    ensures Increasing(settled + batch) && AllBelow(settled + batch, |s.accepted| - |s.queue|)
    ensures Increasing(s.delivered) && AllBelow(s.delivered, |s.accepted| - |s.queue|)
    ensures Increasing(s.gaveUp) && AllBelow(s.gaveUp, |s.accepted| - |s.queue|)
  {
  }

  lemma {:induction false} QueueIds(s: ClientState)
    requires Numbered(s.accepted) && QueueIsNewest(s)
    ensures forall i | 0 <= i < |s.queue| :: s.queue[i].id == |s.accepted| - |s.queue| + i
  {
  }

  function Taken(s: ClientState, n: nat): ClientState
    requires n <= |s.queue|
  {
    s.(queue := s.queue[n..], flight := Some(Flight(s.queue[..n], 0)))
  }

  lemma {:induction false} TakeStaysInOrder(s: ClientState, n: nat)
    requires Numbered(s.accepted) && QueueIsNewest(s) && InOrder(s) && s.flight.None? && n <= |s.queue|
    ensures QueueIsNewest(Taken(s, n)) && InOrder(Taken(s, n))
  {
    QueueIds(s);
    assert InFlight(Taken(s, n)) == s.queue[..n];
  }

  lemma {:induction false} TakeAccounts(s: ClientState, n: nat)
    requires Accounted(s) && s.flight.None? && n <= |s.queue|
    ensures Accounted(Taken(s, n))
  {
    TakeSplits(s.queue, n);
    assert InFlight(Taken(s, n)) == s.queue[..n];
  }

  lemma {:induction false} TakeConserves(o: Options, s: ClientState, n: nat)
    requires Inv(o, s) && s.flight.None? && n == BatchSize(o, |s.queue|)
    ensures Conserved(o, Taken(s, n))
  {
    TakeAccounts(s, n);
    TakeStaysInOrder(s, n);
    assert InFlight(Taken(s, n)) == s.queue[..n];
  }

  lemma {:induction false} TurnKeepsInv(o: Options, s: ClientState)
    requires Inv(o, s)
    ensures Inv(o, Turned(o, s))
  {
    if s.flight.None? && s.flushing && s.queue != [] {
      var n := BatchSize(o, |s.queue|);
      TakeConserves(o, s, n);
      GiveUpConserves(o, s.(queue := s.queue[n..]), Flight(s.queue[..n], 0));
    }
  }

  lemma {:induction false} DeliveryConserves(o: Options, s: ClientState)
    requires Inv(o, s) && s.flight.Some?
    ensures Inv(o, Attempted(o, s, true))
  {
    var batch := s.flight.value.batch;
    assert multiset(s.delivered + batch) == multiset(s.delivered) + multiset(batch);
    SettleInOrder(s.delivered, batch, s);
  }

  lemma {:induction false} RetryConserves(o: Options, s: ClientState)
    requires Inv(o, s) && s.flight.Some?
    ensures Conserved(o, s.(flight := Some(Flight(s.flight.value.batch, s.flight.value.attempt + 1))))
  {
  }

  lemma {:induction false} AttemptKeepsInv(o: Options, s: ClientState, ok: bool)
    requires Inv(o, s)
    ensures Inv(o, Attempted(o, s, ok))
  {
    if s.flight.Some? {
      if ok {
        DeliveryConserves(o, s);
      } else {
        RetryConserves(o, s);
        GiveUpConserves(o, s, Flight(s.flight.value.batch, s.flight.value.attempt + 1));
      }
    }
  }

  lemma {:induction false} RunKeepsInv(o: Options, steps: seq<Step>)
    ensures Inv(o, Run(o, START, steps))
  {
    if steps != [] {
      RunKeepsInv(o, steps[..|steps| - 1]);
      var s := Run(o, START, steps[..|steps| - 1]);
      match steps[|steps| - 1]
      case Emit(payload, valid) => EmitKeepsInv(o, s, payload, valid);
      case FlushCall =>
      case Turn => TurnKeepsInv(o, s);
      case Attempt(ok) => AttemptKeepsInv(o, s, ok);
    }
  }

  /* ---------------- what is accepted, and what a batch is ---------------- */

  /** The payloads emitted while the client is on, invalid ones aside where they are checked. */
  function Admitted(o: Options, steps: seq<Step>): seq<string> {
    if steps == [] then []
    else
      var front, last := Admitted(o, steps[..|steps| - 1]), steps[|steps| - 1];
      if last.Emit? && !o.disabled && (last.valid || !o.devValidate) then front + [last.payload] else front
  }

  /** Exactly those are accepted, in the order of their emission: nothing at all while the client is disabled. */
  lemma {:induction false} AcceptedAreAdmitted(o: Options, steps: seq<Step>)
    ensures var accepted := Run(o, START, steps).accepted;
            && |accepted| == |Admitted(o, steps)|
            && (forall i | 0 <= i < |accepted| :: accepted[i] == Event(i, Admitted(o, steps)[i]))
            && (o.disabled ==> accepted == [])
  {
    if steps != [] {
      AcceptedAreAdmitted(o, steps[..|steps| - 1]);
    }
  }

  /** A turn of a flush takes the oldest events, as many as fit a batch, and posts them for the first time. */
  lemma {:induction false} TurnTakesFullBatch(o: Options, s: ClientState)
    requires s.flushing && s.flight.None? && s.queue != [] && 0 <= o.maxRetries
    ensures var s' := Turned(o, s);
            && s'.flight.Some? && s'.flight.value.attempt == 0
            && s.queue == s'.flight.value.batch + s'.queue
            && (0 <= o.maxBatch <= |s.queue| ==> |s'.flight.value.batch| == o.maxBatch)
            && (|s.queue| < o.maxBatch ==> s'.queue == [])
            && (o.maxBatch < 0 ==> s'.flight.value.batch == [])
  {
  }

  /* ---------------- conservation, bounds and order ---------------- */

  /**
   * For every interleaving of emits, flush calls and answers, every accepted event is in exactly one of:
   * delivered, given up after its retries, dropped by overflow, in flight, queued.
   */
  lemma {:induction false} EveryEventIsAccountedFor(o: Options, steps: seq<Step>, id: nat)
    requires id < |Run(o, START, steps).accepted|
    ensures var s := Run(o, START, steps);
            var event := s.accepted[id];
            && event.id == id
            && multiset(s.delivered)[event] + multiset(s.gaveUp)[event] + multiset(s.overflowed)[event]
               + multiset(InFlight(s))[event] + multiset(s.queue)[event] == 1
  {
    RunKeepsInv(o, steps);
    OccursOnce(Run(o, START, steps).accepted, id);
  }

  lemma {:induction false} OccursOnce(accepted: seq<Event>, id: nat)
    requires Numbered(accepted) && id < |accepted|
    ensures multiset(accepted)[accepted[id]] == 1
  {
    var event := accepted[id];
    var before, after := accepted[..id], accepted[id + 1..];
    assert accepted == before + [event] + after;
    assert event !in before && event !in after;
  }

  /** Memory stays bounded, and delivery is one batch at a time. */
  lemma {:induction false} BuffersStayBounded(o: Options, steps: seq<Step>)
    ensures var s := Run(o, START, steps);
            && |s.queue| <= AtLeastZero(o.maxBuffered)
            && |InFlight(s)| <= AtLeastZero(o.maxBatch)
  {
    RunKeepsInv(o, steps);
  }

  /** Events are delivered in the order they were emitted, and nothing overtakes what is still queued. */
  lemma {:induction false} DeliveryKeepsOrder(o: Options, steps: seq<Step>)
    ensures var s := Run(o, START, steps);
            && Increasing(s.delivered)
            && forall d, q | d in s.delivered + InFlight(s) && q in s.queue :: d.id < q.id
  {
    RunKeepsInv(o, steps);
    var s := Run(o, START, steps);
    var oldest := |s.accepted| - |s.queue|;
    assert AllBelow(s.delivered + InFlight(s), oldest);
    assert AllFrom(s.queue, oldest);
  }

  lemma {:induction false} OverflowStep(o: Options, s: ClientState, step: Step)
    requires |s.queue| <= AtLeastZero(o.maxBuffered)
    ensures var next := Next(o, s, step);
            next.overflowed != s.overflowed ==>
              && AtLeastZero(o.maxBuffered) == |s.queue|
              && step.Emit?
              && next.accepted == s.accepted + [Event(|s.accepted|, step.payload)]
              && next.overflowed == s.overflowed + [if s.queue == [] then next.accepted[|s.accepted|] else s.queue[0]]
  {
    match step
    case Emit(payload, valid) =>
    case FlushCall =>
    case Turn =>
    case Attempt(ok) =>
  }

  /** Overflow only ever drops the oldest queued event, when the queue is full and another is accepted. */
  lemma {:induction false} OverflowOnlyWhenFull(o: Options, steps: seq<Step>, step: Step)
    ensures var s := Run(o, START, steps);
            var next := Next(o, s, step);
            next.overflowed != s.overflowed ==>
              && AtLeastZero(o.maxBuffered) == |s.queue|
              && step.Emit?
              && next.accepted == s.accepted + [Event(|s.accepted|, step.payload)]
              && next.overflowed == s.overflowed + [if s.queue == [] then next.accepted[|s.accepted|] else s.queue[0]]
  {
    BuffersStayBounded(o, steps);
    OverflowStep(o, Run(o, START, steps), step);
  }

  /** A batch is only given up when its last attempt fails: maxRetries + 1 of them in all. */
  lemma {:induction false} GivesUpOnLastAttempt(o: Options, steps: seq<Step>, step: Step)
    ensures var s := Run(o, START, steps);
            var next := Next(o, s, step);
            next.gaveUp != s.gaveUp ==>
              if 0 <= o.maxRetries
              then step == Attempt(false) && s.flight.Some? && s.flight.value.attempt == o.maxRetries
                   && next.gaveUp == s.gaveUp + s.flight.value.batch
              else step == Turn && s.flight.None? && next.gaveUp == s.gaveUp + s.queue[..BatchSize(o, |s.queue|)]
  {
    RunKeepsInv(o, steps);
    match step
    case Emit(payload, valid) =>
    case FlushCall =>
    case Turn =>
    case Attempt(ok) =>
  }

  /* ---------------- a flush drains the queue ---------------- */

  /** The turns and successful posts of a flush that started with n queued events, batch by batch. */
  function Drain(o: Options, n: nat): seq<Step>
    requires 0 < o.maxBatch
  {
    if n == 0 then [Turn] else [Turn, Attempt(true)] + Drain(o, n - BatchSize(o, n))
  }

  lemma {:induction false} RunJoins(o: Options, s: ClientState, a: seq<Step>, b: seq<Step>)
    ensures Run(o, s, a + b) == Run(o, Run(o, s, a), b)
  {
    if b == [] {
      assert a + b == a;
    } else {
      RunJoins(o, s, a, b[..|b| - 1]);
      assert (a + b)[..|a + b| - 1] == a + b[..|b| - 1];
    }
  }

  lemma {:induction false} RunTwo(o: Options, s: ClientState, a: Step, b: Step)
    ensures Run(o, s, [a, b]) == Next(o, Next(o, s, a), b)
    ensures Run(o, s, [a]) == Next(o, s, a)
  {
    assert [a][..0] == [];
    assert Run(o, s, [a]) == Next(o, s, a);
    assert [a, b][..1] == [a];
  }

  lemma {:induction false} OneBatch(o: Options, s: ClientState)
    requires 0 < o.maxBatch && 0 <= o.maxRetries
    requires s.flushing && s.flight.None? && s.queue != []
    ensures var n := BatchSize(o, |s.queue|);
            Run(o, s, [Turn, Attempt(true)]) == s.(queue := s.queue[n..], delivered := s.delivered + s.queue[..n])
  {
    RunTwo(o, s, Turn, Attempt(true));
  }

  lemma {:induction false} DrainStep(o: Options, s: ClientState, later: ClientState, end: ClientState)
    requires 0 < o.maxBatch && 0 <= o.maxRetries
    requires s.flushing && s.flight.None? && s.queue != []
    requires var n := BatchSize(o, |s.queue|);
             later == s.(queue := s.queue[n..], delivered := s.delivered + s.queue[..n])
    requires Run(o, later, Drain(o, |later.queue|)) == end
    ensures Run(o, s, Drain(o, |s.queue|)) == end
  {
    OneBatch(o, s);
    RunJoins(o, s, [Turn, Attempt(true)], Drain(o, |later.queue|));
  }

  lemma {:induction false} DrainDelivers(o: Options, s: ClientState, end: ClientState)
    requires 0 < o.maxBatch && 0 <= o.maxRetries
    requires s.flushing && s.flight.None?
    requires end == s.(queue := [], flushing := false, delivered := s.delivered + s.queue)
    ensures Run(o, s, Drain(o, |s.queue|)) == end
    decreases |s.queue|
  {
    if s.queue == [] {
      RunTwo(o, s, Turn, Turn);
      assert s.delivered + s.queue == s.delivered;
    } else {
      var n := BatchSize(o, |s.queue|);
      var later := s.(queue := s.queue[n..], delivered := s.delivered + s.queue[..n]);
      assert later.delivered + later.queue == s.delivered + s.queue;
      DrainDelivers(o, later, end);
      DrainStep(o, s, later, end);
    }
  }

  /** The steps that finish a flush under way and all that wait, while posts succeed. */
  function Finish(o: Options, flushing: bool, queued: nat, waiting: nat): seq<Step>
    requires 0 < o.maxBatch
    decreases waiting, if flushing then 1 else 0
  {
    if flushing then Drain(o, queued) + Finish(o, false, 0, waiting)
    else if waiting == 0 then []
    else [Turn] + Finish(o, true, queued, waiting - 1)
  }

  /** The queue drained and the flush under way ended. */
  function Drained(s: ClientState): ClientState {
    s.(queue := [], flushing := false, delivered := s.delivered + s.queue)
  }

  /** A waiting flush begun. */
  function Begun(s: ClientState): ClientState
    requires 0 < s.waiting
  {
    s.(flushing := true, waiting := s.waiting - 1)
  }

  lemma {:induction false} FinishUnderWay(o: Options, s: ClientState, end: ClientState)
    requires 0 < o.maxBatch && 0 <= o.maxRetries && s.flight.None? && s.flushing
    requires Run(o, Drained(s), Finish(o, false, 0, s.waiting)) == end
    ensures Run(o, s, Finish(o, true, |s.queue|, s.waiting)) == end
  {
    DrainDelivers(o, s, Drained(s));
    RunJoins(o, s, Drain(o, |s.queue|), Finish(o, false, 0, s.waiting));
  }

  lemma {:induction false} FinishNext(o: Options, s: ClientState, end: ClientState)
    requires 0 < o.maxBatch && s.flight.None? && !s.flushing && 0 < s.waiting
    requires Run(o, Begun(s), Finish(o, true, |s.queue|, s.waiting - 1)) == end
    ensures Run(o, s, Finish(o, false, |s.queue|, s.waiting)) == end
  {
    RunTwo(o, s, Turn, Turn);
    RunJoins(o, s, [Turn], Finish(o, true, |s.queue|, s.waiting - 1));
  }

  lemma {:induction false} FinishDelivers(o: Options, s: ClientState, end: ClientState)
    requires 0 < o.maxBatch && 0 <= o.maxRetries
    requires s.flight.None? && (s.flushing || 0 < s.waiting || s.queue == [])
    requires end == s.(queue := [], flushing := false, waiting := 0, delivered := s.delivered + s.queue)
    ensures Run(o, s, Finish(o, s.flushing, |s.queue|, s.waiting)) == end
    decreases s.waiting, if s.flushing then 1 else 0
  {
    if s.flushing {
      var drained := Drained(s);
      assert drained.delivered + [] == drained.delivered;
      FinishDelivers(o, drained, end);
      FinishUnderWay(o, s, end);
    } else if s.waiting == 0 {
      assert s.delivered + s.queue == s.delivered;
    } else {
      FinishDelivers(o, Begun(s), end);
      FinishNext(o, s, end);
    }
  }

  /** No emit and no failing post. */
  ghost predicate OnlyFlushes(steps: seq<Step>) {
    forall i | 0 <= i < |steps| :: steps[i] == FlushCall || steps[i] == Turn || steps[i] == Attempt(true)
  }

  lemma {:induction false} DrainOnlyFlushes(o: Options, n: nat)
    requires 0 < o.maxBatch
    ensures OnlyFlushes(Drain(o, n))
  {
    if 0 < n {
      DrainOnlyFlushes(o, n - BatchSize(o, n));
    }
  }

  lemma {:induction false} FinishOnlyFlushes(o: Options, flushing: bool, queued: nat, waiting: nat)
    requires 0 < o.maxBatch
    ensures OnlyFlushes(Finish(o, flushing, queued, waiting))
    decreases waiting, if flushing then 1 else 0
  {
    if flushing {
      DrainOnlyFlushes(o, queued);
      FinishOnlyFlushes(o, false, 0, waiting);
    } else if 0 < waiting {
      FinishOnlyFlushes(o, true, queued, waiting - 1);
    }
  }

  /** The batch in flight is answered first. */
  function Settled(s: ClientState): ClientState {
    s.(flight := None, delivered := s.delivered + InFlight(s))
  }

  lemma {:induction false} FlightSettles(o: Options, s: ClientState) returns (first: seq<Step>)
    ensures OnlyFlushes(first) && Run(o, s, first) == Settled(s)
  {
    if s.flight.Some? {
      first := [Attempt(true)];
      RunTwo(o, s, Attempt(true), Turn);
    } else {
      first := [];
      assert s.delivered + InFlight(s) == s.delivered;
    }
  }

  /* ---------------- a flush settles what came before it, whatever the schedule ---------------- */

  /** How often a flush ended. */
  function Ends(o: Options, s: ClientState, steps: seq<Step>): nat {
    if steps == [] then 0
    else
      var front := steps[..|steps| - 1];
      Ends(o, s, front) + if Run(o, s, front).flushing && !Run(o, s, steps).flushing then 1 else 0
  }

  /** Flushes that end before one called now can: the one under way and those waiting. */
  function Ahead(s: ClientState): nat {
    s.waiting + if s.flushing then 1 else 0
  }

  function Calls(steps: seq<Step>): nat {
    if steps == [] then 0
    else Calls(steps[..|steps| - 1]) + if steps[|steps| - 1] == FlushCall then 1 else 0
  }

  /** Every flush call is served in its turn: it has ended, is under way, or waits. */
  lemma {:induction false} CallsAreServed(o: Options, s: ClientState, steps: seq<Step>)
    ensures Ends(o, s, steps) + Ahead(Run(o, s, steps)) == Ahead(s) + Calls(steps)
  {
    if steps != [] {
      CallsAreServed(o, s, steps[..|steps| - 1]);
    }
  }

  /** The flush called in s has had its turn: more flushes have ended since than were ahead of it. */
  ghost predicate Answered(o: Options, s: ClientState, more: seq<Step>) {
    Ahead(s) < Ends(o, FlushCalled(s), more)
  }

  /** A schedule that ends with no flush under way or waiting has answered the call. */
  lemma {:induction false} QuietMeansAnswered(o: Options, s: ClientState, more: seq<Step>)
    requires Ahead(Run(o, FlushCalled(s), more)) == 0
    ensures Answered(o, s, more)
  {
    CallsAreServed(o, FlushCalled(s), more);
  }

  /**
   * From every reachable state there is a schedule in which a flush call ends: while posts succeed, what
   * is in flight and everything queued goes out, in order, and no flush is left under way or waiting.
   */
  lemma {:induction false} FlushCanEnd(o: Options, steps: seq<Step>) returns (more: seq<Step>)
    requires 0 < o.maxBatch && 0 <= o.maxRetries
    ensures OnlyFlushes(more) && Answered(o, Run(o, START, steps), more)
    ensures var s := Run(o, START, steps);
            Run(o, FlushCalled(s), more)
            == s.(queue := [], flight := None, flushing := false, waiting := 0,
                  delivered := s.delivered + InFlight(s) + s.queue)
  {
    var s := FlushCalled(Run(o, START, steps));
    var first := FlightSettles(o, s);
    var rest := Finish(o, s.flushing, |s.queue|, s.waiting);
    FinishOnlyFlushes(o, s.flushing, |s.queue|, s.waiting);
    more := first + rest;
    RunJoins(o, s, first, rest);
    FinishDelivers(o, Settled(s), s.(queue := [], flight := None, flushing := false, waiting := 0,
                                     delivered := s.delivered + InFlight(s) + s.queue));
    QuietMeansAnswered(o, Run(o, START, steps), more);
  }

  /** Nothing accepted among the first n is in flight or queued any more. */
  ghost predicate NoneLeft(s: ClientState, n: nat) {
    n <= |s.accepted| && AllFrom(InFlight(s), n) && AllFrom(s.queue, n)
  }

  lemma {:induction false} NoneLeftStays(o: Options, s: ClientState, n: nat, step: Step)
    requires NoneLeft(s, n)
    ensures NoneLeft(Next(o, s, step), n)
  {
    match step
    case Emit(payload, valid) =>
    case FlushCall =>
    case Turn =>
    case Attempt(ok) =>
  }

  lemma {:induction false} FlushEndsEmpty(o: Options, s: ClientState, step: Step)
    requires s.flushing && !Next(o, s, step).flushing
    ensures Next(o, s, step).queue == [] && Next(o, s, step).flight == None
  {
  }

  lemma {:induction false} AcceptedGrows(o: Options, s: ClientState, steps: seq<Step>)
    ensures s.accepted <= Run(o, s, steps).accepted
  {
    if steps != [] {
      AcceptedGrows(o, s, steps[..|steps| - 1]);
    }
  }

  /** As soon as any flush has ended, nothing accepted before is left. */
  lemma {:induction false} EndLeavesNone(o: Options, s: ClientState, more: seq<Step>)
    requires 0 < Ends(o, s, more)
    ensures NoneLeft(Run(o, s, more), |s.accepted|)
  {
    var front, last := more[..|more| - 1], more[|more| - 1];
    if Run(o, s, front).flushing && !Run(o, s, more).flushing {
      FlushEndsEmpty(o, Run(o, s, front), last);
      AcceptedGrows(o, s, more);
    } else {
      EndLeavesNone(o, s, front);
      NoneLeftStays(o, Run(o, s, front), |s.accepted|, last);
    }
  }

  /**
   * In every schedule, emits and failing posts included: when the turn of a flush call has ended, every
   * event accepted before the call is delivered, given up after its retries, or dropped by overflow.
   */
  lemma {:induction false} FlushSettlesEverything(o: Options, steps: seq<Step>, more: seq<Step>)
    requires Answered(o, Run(o, START, steps), more)
    ensures var (s, s') := (Run(o, START, steps), Run(o, FlushCalled(Run(o, START, steps)), more));
            && s.accepted <= s'.accepted && NoneLeft(s', |s.accepted|)
            && forall event | event in s.accepted ::
                 event in s'.delivered || event in s'.gaveUp || event in s'.overflowed
  {
    var s := Run(o, START, steps);
    var s' := Run(o, FlushCalled(s), more);
    EndLeavesNone(o, FlushCalled(s), more);
    AcceptedGrows(o, FlushCalled(s), more);
    CalledRun(o, steps, more);
    forall event | event in s.accepted
      ensures event in s'.delivered || event in s'.gaveUp || event in s'.overflowed
    {
      var id :| 0 <= id < |s.accepted| && s.accepted[id] == event;
      EveryEventIsAccountedFor(o, steps + [FlushCall] + more, id);
      assert event !in multiset(InFlight(s')) && event !in multiset(s'.queue);
    }
  }

  lemma {:induction false} CalledRun(o: Options, steps: seq<Step>, more: seq<Step>)
    ensures Run(o, START, steps + [FlushCall] + more) == Run(o, FlushCalled(Run(o, START, steps)), more)
  {
    RunJoins(o, START, steps + [FlushCall], more);
    assert (steps + [FlushCall])[..|steps|] == steps;
  }

  /** Delivered, in flight and queued, in this order: what successful posts only move along. */
  function Pipeline(s: ClientState): seq<Event> {
    s.delivered + InFlight(s) + s.queue
  }

  ghost predicate Idle(s: ClientState) {
    s.queue == [] && s.flight.None?
  }

  lemma {:induction false} PipelineStep(o: Options, s: ClientState, step: Step)
    requires 0 <= o.maxRetries && OnlyFlushes([step])
    ensures Pipeline(Next(o, s, step)) == Pipeline(s)
    ensures Idle(s) ==> Idle(Next(o, s, step))
  {
    assert [step][0] == step;
    if step.Turn? && s.flight.None? && s.flushing && s.queue != [] {
      var n := BatchSize(o, |s.queue|);
      assert s.queue == s.queue[..n] + s.queue[n..];
    }
  }

  lemma {:induction false} PipelineRun(o: Options, s: ClientState, more: seq<Step>)
    requires 0 <= o.maxRetries && OnlyFlushes(more)
    ensures Pipeline(Run(o, s, more)) == Pipeline(s)
    ensures 0 < Ends(o, s, more) ==> Idle(Run(o, s, more))
  {
    if more != [] {
      var front, last := more[..|more| - 1], more[|more| - 1];
      PipelineRun(o, s, front);
      PipelineStep(o, Run(o, s, front), last);
      if Run(o, s, front).flushing && !Run(o, s, more).flushing {
        FlushEndsEmpty(o, Run(o, s, front), last);
      }
    }
  }

  /**
   * shutdown, for every schedule in which posts succeed and nothing is emitted: when the turn of the call
   * has ended, what was in flight and queued is delivered, in order, and nothing else.
   */
  lemma {:induction false} FlushDeliversEverything(o: Options, steps: seq<Step>, more: seq<Step>)
    requires 0 <= o.maxRetries && OnlyFlushes(more) && Answered(o, Run(o, START, steps), more)
    ensures var (s, s') := (Run(o, START, steps), Run(o, FlushCalled(Run(o, START, steps)), more));
            && s'.queue == [] && s'.flight == None
            && s'.delivered == s.delivered + InFlight(s) + s.queue
  {
    var s := FlushCalled(Run(o, START, steps));
    PipelineRun(o, s, more);
    assert Pipeline(Run(o, s, more)) == Run(o, s, more).delivered;
  }

  lemma {:induction false} EmptyBatchStep(o: Options, s: ClientState, step: Step)
    requires o.maxBatch <= 0 && |InFlight(s)| == 0
    ensures var next := Next(o, s, step);
            next.delivered == s.delivered && next.gaveUp == s.gaveUp
  {
    assert BatchSize(o, |s.queue|) == 0;
    match step
    case Emit(payload, valid) =>
    case FlushCall =>
    case Turn =>
    case Attempt(ok) =>
  }

  /** With a batch size of zero or less no run ever delivers anything, nor gives anything up. */
  lemma {:induction false} EmptyBatchesDeliverNothing(o: Options, steps: seq<Step>)
    requires o.maxBatch <= 0
    ensures var s := Run(o, START, steps); s.delivered == [] && s.gaveUp == []
  {
    if steps != [] {
      var front := steps[..|steps| - 1];
      EmptyBatchesDeliverNothing(o, front);
      BuffersStayBounded(o, front);
      EmptyBatchStep(o, Run(o, START, front), steps[|steps| - 1]);
    }
  }
}
