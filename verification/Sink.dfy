/**
 * BufferedSink (packages/collector/src/sink.ts) and the acknowledge-or-503 decision of the
 * collector's intake routes (packages/collector/src/app.ts).
 *
 * publish awaits the inner sink, so a call is two steps, and other calls may run between them. Only a
 * successful inner publish counts as delivery; a failed one may have delivered any part, or nothing.
 */
module Sink {
  /** The two fields publish reassigns. */
  datatype Fields<E> = Fields(buffer: seq<E>, degraded: bool)

  /** What a call holds across its await: the backlog it took out of the buffer and its own messages. */
  datatype Call<E> = Call(backlog: seq<E>, messages: seq<E>) {
    function Pending(): seq<E> {
      backlog + messages
    }
  }

  datatype Answer = Accepted | Backpressure(buffered: nat)

  function Opened<E>(f: Fields<E>): Fields<E> {
    f.(buffer := [])
  }

  /** The rest of publish, once the inner sink has answered. */
  function Closed<E>(f: Fields<E>, capacity: nat, call: Call<E>, delivered: bool): Fields<E> {
    if delivered then f.(degraded := false)
    else if |call.Pending()| <= capacity then Fields(call.Pending(), true)
    else Fields(call.backlog, true)
  }

  /** Accepted is answered 202, BackpressureError 503. */
  function AnswerTo<E>(capacity: nat, call: Call<E>, delivered: bool): Answer {
    if delivered || |call.Pending()| <= capacity then Accepted else Backpressure(|call.backlog|)
  }

  class BufferedSink<E> {
    var buffer: seq<E>
    var degraded: bool
    const capacity: nat

    ghost function State(): Fields<E>
      reads this
    {
      Fields(buffer, degraded)
    }

    constructor (capacity: nat)
      ensures State() == Fields([], false) && this.capacity == capacity
    {
      buffer, degraded, this.capacity := [], false, capacity;
    }

    /** Up to the await. With nothing pending there is no await: the call closes at once. */
    method StartPublish(messages: seq<E>) returns (call: Call<E>)
      modifies this
      ensures call == Call(old(buffer), messages)
      ensures State() == if call.Pending() == [] then Fields([], false) else Opened(old(State()))
    {
      var backlog := buffer;
      call := Call(backlog, messages);
      buffer := [];
      if |call.Pending()| == 0 {
        degraded := false;
      }
    }

    /** From the inner sink's answer on. */
    method FinishPublish(call: Call<E>, delivered: bool) returns (answer: Answer)
      modifies this
      ensures State() == Closed(old(State()), capacity, call, delivered)
      ensures answer == AnswerTo(capacity, call, delivered)
    {
      if delivered {
        degraded := false;
        return Accepted;
      }
      degraded := true;
      var pending := call.Pending();
      if |pending| <= capacity {
        buffer := pending;
        return Accepted;
      }
      buffer := call.backlog;
      answer := Backpressure(|call.backlog|);
    }
  }

  /* ---------------- the collector around the sink ---------------- */

  /**
   * `acked` are the events of requests answered 202, in the order of the answers; `delivered` those
   * of successful inner publishes. `calls` are the requests waiting on the inner sink.
   */
  datatype World<E> = World(
    fields: Fields<E>,
    calls: map<nat, Call<E>>,
    acked: seq<E>,
    delivered: seq<E>,
    refused: nat)

  datatype Step<E> = Start(id: nat, messages: seq<E>) | Finish(id: nat, ok: bool)

  function Init<E>(): World<E> {
    World(Fields([], false), map[], [], [], 0)
  }

  function Next<E>(capacity: nat, w: World<E>, step: Step<E>): World<E> {
    match step
    case Start(id, messages) =>
      if id in w.calls then w
      else
        var call := Call(w.fields.buffer, messages);
        if call.Pending() == [] then w.(fields := Fields([], false))
        else w.(fields := Opened(w.fields), calls := w.calls[id := call])
    case Finish(id, ok) =>
      if id !in w.calls then w
      else
        var call := w.calls[id];
        var closed := w.(fields := Closed(w.fields, capacity, call, ok), calls := w.calls - {id});
        var answered :=
          if AnswerTo(capacity, call, ok).Accepted? then closed.(acked := w.acked + call.messages)
          else closed.(refused := w.refused + 1);
        if ok then answered.(delivered := w.delivered + call.Pending()) else answered
  }

  function Run<E>(capacity: nat, steps: seq<Step<E>>): World<E> {
    if steps == [] then Init() else Next(capacity, Run(capacity, steps[..|steps| - 1]), steps[|steps| - 1])
  }

  /* ---------------- what health reports ---------------- */

  /** The last answer of the inner sink, up by default; a publish with nothing to send counts as up. */
  ghost function LastAnswer<E>(capacity: nat, steps: seq<Step<E>>): bool {
    if steps == [] then true
    else
      var w, last := Run(capacity, steps[..|steps| - 1]), steps[|steps| - 1];
      if last.Finish? && last.id in w.calls then last.ok
      else if last.Start? && last.id !in w.calls && w.fields.buffer == [] && last.messages == [] then true
      else LastAnswer(capacity, steps[..|steps| - 1])
  }

  /** The sink reports itself degraded exactly while the last answer was a failure. */
  lemma {:induction false} HealthIsLastAnswer<E>(capacity: nat, steps: seq<Step<E>>)
    ensures Run(capacity, steps).fields.degraded <==> !LastAnswer(capacity, steps)
  {
    if steps != [] {
      HealthIsLastAnswer(capacity, steps[..|steps| - 1]);
    }
  }

  /** Every request is answered once: each finish either acknowledges its events or is counted as refused. */
  lemma {:induction false} FinishAnswers<E>(capacity: nat, w: World<E>, id: nat, ok: bool)
    requires id in w.calls
    ensures var (call, w') := (w.calls[id], Next(capacity, w, Finish(id, ok)));
            if ok || |call.backlog| + |call.messages| <= capacity
            then w'.acked == w.acked + call.messages && w'.refused == w.refused
            else w'.acked == w.acked && w'.refused == w.refused + 1
                 && AnswerTo(capacity, call, ok) == Backpressure(|call.backlog|)
  {
  }

  /* ---------------- bounded, whatever overlaps ---------------- */

  ghost predicate Bounded<E>(capacity: nat, w: World<E>) {
    && |w.fields.buffer| <= capacity
    && forall id <- w.calls :: |w.calls[id].backlog| <= capacity
  }

  /** The buffer never exceeds its capacity, even with overlapping publishes. */
  lemma {:induction false} BufferStaysWithinCapacity<E>(capacity: nat, steps: seq<Step<E>>)
    ensures Bounded(capacity, Run(capacity, steps))
  {
    if steps != [] {
      BufferStaysWithinCapacity(capacity, steps[..|steps| - 1]);
    }
  }

  /* ---------------- one publish at a time ---------------- */

  /** No publish starts while another is waiting on the inner sink. */
  ghost predicate Sequential<E>(capacity: nat, steps: seq<Step<E>>) {
    steps == [] ||
    (var init, last := steps[..|steps| - 1], steps[|steps| - 1];
     Sequential(capacity, init) && (last.Start? ==> Run(capacity, init).calls == map[]))
  }

  /** Acknowledged events, in order: first the delivered ones, then the backlog. */
  ghost predicate InOrder<E>(w: World<E>) {
    || (w.calls == map[] && w.acked == w.delivered + w.fields.buffer)
    || (exists id :: w.calls.Keys == {id} && w.fields.buffer == [] && w.acked == w.delivered + w.calls[id].backlog)
  }

  lemma {:induction false} SequentialKeepsOrder<E>(capacity: nat, steps: seq<Step<E>>)
    requires Sequential(capacity, steps)
    ensures InOrder(Run(capacity, steps))
  {
    if steps != [] {
      var init, last := steps[..|steps| - 1], steps[|steps| - 1];
      var w := Run(capacity, init);
      SequentialKeepsOrder(capacity, init);
      match last
      case Start(id, messages) =>
        if w.fields.buffer + messages != [] {
          assert Next(capacity, w, last).calls.Keys == {id};
        }
      case Finish(id, ok) =>
        if id in w.calls {
          var call := w.calls[id];
          assert w.calls - {id} == map[];
          assert w.delivered + (call.backlog + call.messages) == w.delivered + call.backlog + call.messages;
        }
    }
  }

  /** A refused request leaves the sink's buffer exactly as the request found it. */
  lemma {:induction false} RefusalRestoresBuffer<E>(capacity: nat, steps: seq<Step<E>>, id: nat, messages: seq<E>)
    requires Sequential(capacity, steps) && Run(capacity, steps).calls == map[]
    ensures var w := Run(capacity, steps);
            var started := Next(capacity, w, Start(id, messages));
            var failed := Next(capacity, started, Finish(id, false));
            && (failed.refused > w.refused <==> messages != [] && |w.fields.buffer| + |messages| > capacity)
            && (failed.refused > w.refused ==> failed.fields.buffer == w.fields.buffer && failed.acked == w.acked)
            && (failed.refused == w.refused ==> failed.fields.buffer == w.fields.buffer + messages)
  {
    BufferStaysWithinCapacity(capacity, steps);
  }

  /* ---------------- overlapping publishes ---------------- */

  /** The acknowledged events that calls hold across their await. */
  ghost function Held<E(!new)>(calls: map<nat, Call<E>>): multiset<E>
    decreases |calls|
  {
    if calls == map[] then multiset{}
    else
      var id := Pick(calls);
      assert |calls - {id}| < |calls| by { assert calls.Keys == (calls - {id}).Keys + {id}; }
      multiset(calls[id].backlog) + Held(calls - {id})
  }

  ghost function Pick<E>(calls: map<nat, Call<E>>): (id: nat)
    requires calls != map[]
    ensures id in calls
  {
    assert calls.Keys != {};
    var i: nat :| i in calls.Keys; i
  }

  lemma {:induction false} OneFewer<E>(calls: map<nat, Call<E>>, id: nat)
    requires id in calls
    ensures |calls - {id}| < |calls|
  {
    assert calls.Keys == (calls - {id}).Keys + {id};
  }

  lemma {:induction false} HeldWithout<E(!new)>(calls: map<nat, Call<E>>, id: nat)
    requires id in calls
    ensures Held(calls) == multiset(calls[id].backlog) + Held(calls - {id})
    decreases |calls|
  {
    var first := Pick(calls);
    if first != id {
      OneFewer(calls, first);
      OneFewer(calls, id);
      HeldWithout(calls - {first}, id);
      HeldWithout(calls - {id}, first);
      assert calls - {first} - {id} == calls - {id} - {first};
    }
  }

  /** A failing finish assigns the buffer; what other calls had put there is gone. */
  function OverwrittenBy<E>(w: World<E>, step: Step<E>): seq<E> {
    if step.Finish? && step.id in w.calls && !step.ok then w.fields.buffer else []
  }

  ghost function Overwritten<E>(capacity: nat, steps: seq<Step<E>>): multiset<E> {
    if steps == [] then multiset{}
    else
      var init, last := steps[..|steps| - 1], steps[|steps| - 1];
      Overwritten(capacity, init) + multiset(OverwrittenBy(Run(capacity, init), last))
  }

  /** Every failing finish of the run found the buffer empty. */
  ghost predicate NoOverwrite<E>(capacity: nat, steps: seq<Step<E>>) {
    steps == [] ||
    (var init, last := steps[..|steps| - 1], steps[|steps| - 1];
     NoOverwrite(capacity, init) && OverwrittenBy(Run(capacity, init), last) == [])
  }

  ghost function Accounted<E(!new)>(w: World<E>): multiset<E> {
    multiset(w.delivered) + multiset(w.fields.buffer) + Held(w.calls)
  }

  lemma {:induction false} StartBalances<E(!new)>(capacity: nat, w: World<E>, id: nat, messages: seq<E>)
    requires id !in w.calls
    ensures Accounted(Next(capacity, w, Start(id, messages))) == Accounted(w)
    ensures Next(capacity, w, Start(id, messages)).acked == w.acked
  {
    if w.fields.buffer + messages != [] {
      var w' := Next(capacity, w, Start(id, messages));
      HeldWithout(w'.calls, id);
      assert w'.calls - {id} == w.calls;
    } else {
      assert w.fields.buffer == [];
    }
  }

  lemma {:induction false} FinishBalances<E(!new)>(capacity: nat, w: World<E>, id: nat, ok: bool)
    requires id in w.calls
    ensures var w' := Next(capacity, w, Finish(id, ok));
            && w.acked <= w'.acked
            && Accounted(w') + multiset(OverwrittenBy(w, Finish(id, ok)))
               == Accounted(w) + multiset(w'.acked[|w.acked|..])
  {
    HeldWithout(w.calls, id);
    var call := w.calls[id];
    var w' := Next(capacity, w, Finish(id, ok));
    assert multiset(call.Pending()) == multiset(call.backlog) + multiset(call.messages);
    if ok {
      assert w'.acked[|w.acked|..] == call.messages;
    } else if |call.Pending()| <= capacity {
      assert w'.acked[|w.acked|..] == call.messages;
    } else {
      assert w'.acked[|w.acked|..] == [];
    }
  }

  lemma {:induction false} NextBalances<E(!new)>(capacity: nat, w: World<E>, step: Step<E>, lost: multiset<E>)
    requires multiset(w.acked) == Accounted(w) + lost
    ensures multiset(Next(capacity, w, step).acked)
         == Accounted(Next(capacity, w, step)) + lost + multiset(OverwrittenBy(w, step))
  {
    var w' := Next(capacity, w, step);
    if step.Start? && step.id !in w.calls {
      StartBalances(capacity, w, step.id, step.messages);
    } else if step.Finish? && step.id in w.calls {
      FinishBalances(capacity, w, step.id, step.ok);
      var news := w'.acked[|w.acked|..];
      assert w'.acked == w.acked + news;
      assert multiset(w'.acked) == multiset(w.acked) + multiset(news);
      var gone := multiset(OverwrittenBy(w, step));
      assert Accounted(w') + lost + gone == (Accounted(w') + gone) + lost;
      assert Accounted(w) + multiset(news) + lost == (Accounted(w) + lost) + multiset(news);
    }
  }

  lemma {:induction false} EveryEventIsCounted<E(!new)>(capacity: nat, steps: seq<Step<E>>)
    ensures var w := Run(capacity, steps);
            multiset(w.acked) == Accounted(w) + Overwritten(capacity, steps)
  {
    if steps != [] {
      var init, last := steps[..|steps| - 1], steps[|steps| - 1];
      EveryEventIsCounted(capacity, init);
      NextBalances(capacity, Run(capacity, init), last, Overwritten(capacity, init));
    }
  }

  lemma {:induction false} OverwrittenNothing<E>(capacity: nat, steps: seq<Step<E>>)
    ensures Overwritten(capacity, steps) == multiset{} <==> NoOverwrite(capacity, steps)
  {
    if steps != [] {
      var init, last := steps[..|steps| - 1], steps[|steps| - 1];
      OverwrittenNothing(capacity, init);
      var gone := OverwrittenBy(Run(capacity, init), last);
      if gone != [] {
        assert gone[0] in multiset(gone);
      }
    }
  }

  /**
   * Exactly when nothing acknowledged is lost: after any interleaving, the acknowledged events are
   * the delivered, buffered and in-flight ones if and only if no failing finish of the run found
   * the buffer non-empty.
   */
  lemma {:induction false} NothingAckedIsLostExactly<E(!new)>(capacity: nat, steps: seq<Step<E>>)
    ensures var w := Run(capacity, steps);
            multiset(w.acked) == Accounted(w) <==> NoOverwrite(capacity, steps)
  {
    var w := Run(capacity, steps);
    EveryEventIsCounted(capacity, steps);
    OverwrittenNothing(capacity, steps);
    if multiset(w.acked) == Accounted(w) {
      forall e ensures Overwritten(capacity, steps)[e] == 0 {
        assert multiset(w.acked)[e] == Accounted(w)[e] + Overwritten(capacity, steps)[e];
      }
    }
  }

  /** One publish at a time never overwrites. */
  lemma {:induction false} SequentialNeverOverwrites<E>(capacity: nat, steps: seq<Step<E>>)
    requires Sequential(capacity, steps)
    ensures NoOverwrite(capacity, steps)
  {
    if steps != [] {
      var init, last := steps[..|steps| - 1], steps[|steps| - 1];
      SequentialNeverOverwrites(capacity, init);
      SequentialKeepsOrder(capacity, init);
    }
  }

  /** Two overlapping publishes during an outage: both answered 202, the first event is nowhere. */
  lemma {:induction false} OverlapLosesAckedEvent<E>(capacity: nat, a: E, b: E)
    requires 0 < capacity && a != b
    ensures var w := Run(capacity, [Start(0, [a]), Start(1, [b]), Finish(0, false), Finish(1, false)]);
            && w.acked == [a, b] && w.refused == 0
            && w.calls == map[] && w.delivered == [] && w.fields.buffer == [b]
  {
    var s1 := [Start(0, [a])];
    var s2 := s1 + [Start(1, [b])];
    var s3 := s2 + [Finish(0, false)];
    var s4 := s3 + [Finish(1, false)];
    assert s1[..0] == [] && s2[..1] == s1 && s3[..2] == s2 && s4[..3] == s3;
    var c0: Call<E>, c1: Call<E> := Call([], [a]), Call([], [b]);
    assert c0.Pending() == [a] && c1.Pending() == [b];
    var w0: World<E> := Init();
    assert Run(capacity, s1) == Next(capacity, w0, Start(0, [a]));
    var w1 := Run(capacity, s1);
    assert w1.calls == map[0 := c0] && w1.fields == Fields([], false) && w1.acked == [];
    var w2 := Run(capacity, s2);
    assert w2 == Next(capacity, w1, Start(1, [b]));
    assert w2.calls == map[0 := c0, 1 := c1] && w2.fields == Fields([], false);
    var w3 := Run(capacity, s3);
    assert w3 == Next(capacity, w2, Finish(0, false));
    assert w3.calls == map[1 := c1] && w3.fields.buffer == [a] && w3.acked == [a];
    assert Run(capacity, s4) == Next(capacity, w3, Finish(1, false));
    assert w3.calls - {1} == map[];
    assert s4 == [Start(0, [a]), Start(1, [b]), Finish(0, false), Finish(1, false)];
  }
}
