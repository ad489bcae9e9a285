/**
 * The delivery path end to end: what the collector acknowledges (Sink) against what the clusters show
 * once the topic is consumed (Consumer).
 *
 * A failed inner publish may leave any part of its messages on the topic; they come again with the
 * buffered backlog, or with the client's retry.
 */
module Delivery {
  import opened Transform
  import opened Storage
  import opened Consumer
  import Sink

  datatype Publishing = Start(id: nat, messages: seq<Message>) | Finish(id: nat, ok: bool, landed: set<nat>)

  /** The collector's side and the topic. */
  datatype Path = Path(collector: Sink.World<Message>, topic: seq<Message>)

  function Bare(step: Publishing): Sink.Step<Message> {
    match step
    case Start(id, messages) => Sink.Start(id, messages)
    case Finish(id, ok, _) => Sink.Finish(id, ok)
  }

  function BareAll(steps: seq<Publishing>): (r: seq<Sink.Step<Message>>)
    ensures |r| == |steps|
  {
    if steps == [] then [] else BareAll(steps[..|steps| - 1]) + [Bare(steps[|steps| - 1])]
  }

  /** The messages at these places. */
  function Part(messages: seq<Message>, places: set<nat>): (r: seq<Message>)
    ensures forall m | m in r :: m in messages
  {
    if messages == [] then []
    else
      var n := |messages| - 1;
      Part(messages[..n], places) + if n in places then [messages[n]] else []
  }

  /** What a step puts on the topic. */
  function Published(w: Sink.World<Message>, step: Publishing): seq<Message> {
    if step.Finish? && step.id in w.calls then
      var pending := w.calls[step.id].Pending();
      if step.ok then pending else Part(pending, step.landed)
    else []
  }

  function Advance(capacity: nat, p: Path, step: Publishing): Path {
    Path(Sink.Next(capacity, p.collector, Bare(step)), p.topic + Published(p.collector, step))
  }

  function Collected(capacity: nat, steps: seq<Publishing>): Path {
    if steps == [] then Path(Sink.Init(), [])
    else Advance(capacity, Collected(capacity, steps[..|steps| - 1]), steps[|steps| - 1])
  }

  lemma {:induction false} CollectorRuns(capacity: nat, steps: seq<Publishing>)
    ensures Collected(capacity, steps).collector == Sink.Run(capacity, BareAll(steps))
  {
    if steps != [] {
      var n := |steps| - 1;
      CollectorRuns(capacity, steps[..n]);
      assert BareAll(steps)[..n] == BareAll(steps[..n]);
    }
  }

  /** Everything a successful inner publish had is on the topic. */
  ghost predicate DeliveredOnTopic(p: Path) {
    forall i | 0 <= i < |p.collector.delivered| :: p.collector.delivered[i] in p.topic
  }

  lemma {:induction false} DeliveredIsOnTopic(capacity: nat, steps: seq<Publishing>)
    ensures DeliveredOnTopic(Collected(capacity, steps))
  {
    if steps != [] {
      DeliveredIsOnTopic(capacity, steps[..|steps| - 1]);
      StepDelivers(capacity, Collected(capacity, steps[..|steps| - 1]), steps[|steps| - 1]);
    }
  }

  lemma {:induction false} StepDelivers(capacity: nat, p: Path, step: Publishing)
    requires DeliveredOnTopic(p)
    ensures DeliveredOnTopic(Advance(capacity, p, step))
  {
    var p' := Advance(capacity, p, step);
    assert p'.topic == p.topic + Published(p.collector, step);
    if step.Finish? && step.id in p.collector.calls && step.ok {
      assert p'.collector.delivered == p.collector.delivered + Published(p.collector, step);
    } else {
      assert p'.collector.delivered == p.collector.delivered;
    }
  }

  /* ---------------- what a failed publish left behind ---------------- */

  ghost function Somewhere(p: Path): multiset<Message> {
    multiset(p.topic) + multiset(p.collector.fields.buffer) + Sink.Held(p.collector.calls)
  }

  lemma {:induction false} StepHoldsDelivered(capacity: nat, p: Path, step: Publishing)
    requires multiset(p.collector.delivered) <= multiset(p.topic)
    ensures var p' := Advance(capacity, p, step); multiset(p'.collector.delivered) <= multiset(p'.topic)
  {
    var published := Published(p.collector, step);
    assert multiset(p.topic + published) == multiset(p.topic) + multiset(published);
    if step.Finish? && step.id in p.collector.calls && step.ok {
      assert multiset(p.collector.delivered + published) == multiset(p.collector.delivered) + multiset(published);
    }
  }

  lemma {:induction false} TopicHoldsDelivered(capacity: nat, steps: seq<Publishing>)
    ensures var p := Collected(capacity, steps); multiset(p.collector.delivered) <= multiset(p.topic)
  {
    if steps != [] {
      TopicHoldsDelivered(capacity, steps[..|steps| - 1]);
      StepHoldsDelivered(capacity, Collected(capacity, steps[..|steps| - 1]), steps[|steps| - 1]);
    }
  }

  /** The same steps, when failed publishes left nothing on the topic. */
  function Cleanly(bare: seq<Sink.Step<Message>>): (steps: seq<Publishing>)
    ensures BareAll(steps) == bare
  {
    if bare == [] then []
    else
      var last := match bare[|bare| - 1] {
        case Start(id, messages) => Start(id, messages)
        case Finish(id, ok) => Finish(id, ok, {})
      };
      var steps := Cleanly(bare[..|bare| - 1]) + [last];
      assert steps[..|steps| - 1] == Cleanly(bare[..|bare| - 1]);
      steps
  }

  lemma {:induction false} NoPart(messages: seq<Message>)
    ensures Part(messages, {}) == []
  {
    if messages != [] {
      NoPart(messages[..|messages| - 1]);
    }
  }

  lemma {:induction false} CleanTopic(capacity: nat, bare: seq<Sink.Step<Message>>)
    ensures var p := Collected(capacity, Cleanly(bare)); p.topic == p.collector.delivered
  {
    if bare != [] {
      var front, steps := bare[..|bare| - 1], Cleanly(bare);
      CleanTopic(capacity, front);
      assert steps[..|steps| - 1] == Cleanly(front);
      var p := Collected(capacity, Cleanly(front));
      var last := steps[|steps| - 1];
      if last.Finish? && last.id in p.collector.calls {
        NoPart(p.collector.calls[last.id].Pending());
      }
    }
  }

  /**
   * Counting also what failed publishes got onto the topic: an interleaving of publishes loses no
   * acknowledged event, whatever parts landed, exactly when no failing one finds the buffer non-empty.
   */
  lemma {:induction false} NothingAckedIsLostExactly(capacity: nat, bare: seq<Sink.Step<Message>>)
    ensures (forall steps | BareAll(steps) == bare ::
              var p := Collected(capacity, steps); multiset(p.collector.acked) <= Somewhere(p))
       <==> Sink.NoOverwrite(capacity, bare)
  {
    Sink.NothingAckedIsLostExactly(capacity, bare);
    if Sink.NoOverwrite(capacity, bare) {
      forall steps | BareAll(steps) == bare
        ensures var p := Collected(capacity, steps); multiset(p.collector.acked) <= Somewhere(p)
      {
        CollectorRuns(capacity, steps);
        TopicHoldsDelivered(capacity, steps);
      }
    } else {
      var p := Collected(capacity, Cleanly(bare));
      CollectorRuns(capacity, Cleanly(bare));
      CleanTopic(capacity, bare);
      Sink.EveryEventIsCounted(capacity, bare);
      Sink.OverwrittenNothing(capacity, bare);
      assert Somewhere(p) == Sink.Accounted(p.collector);
      var lost := Sink.Overwritten(capacity, bare);
      var e :| e in lost;
      assert multiset(p.collector.acked)[e] == Somewhere(p)[e] + lost[e];
      assert !(multiset(p.collector.acked) <= Somewhere(p));
    }
  }

  /* ---------------- acknowledged events ---------------- */

  /** Held by a call across its await. */
  ghost predicate InFlight(calls: map<nat, Sink.Call<Message>>, m: Message) {
    exists id :: id in calls && m in calls[id].backlog
  }

  lemma {:induction false} HeldIsInFlight(calls: map<nat, Sink.Call<Message>>, m: Message)
    requires m in Sink.Held(calls)
    ensures InFlight(calls, m)
    decreases |calls|
  {
    if calls != map[] {
      var id := Sink.Pick(calls);
      Sink.OneFewer(calls, id);
      if m !in calls[id].backlog {
        HeldIsInFlight(calls - {id}, m);
      }
    }
  }

  /**
   * While no failing publish finds a filled buffer, as without overlapping publishes, every acknowledged
   * event is on the topic, in the buffer, or in flight.
   */
  lemma {:induction false} AcknowledgedIsSomewhere(capacity: nat, steps: seq<Publishing>, m: Message)
    requires Sink.NoOverwrite(capacity, BareAll(steps))
    requires m in Collected(capacity, steps).collector.acked
    ensures var p := Collected(capacity, steps);
            m in p.topic || m in p.collector.fields.buffer || InFlight(p.collector.calls, m)
  {
    var w := Collected(capacity, steps).collector;
    CollectorRuns(capacity, steps);
    Sink.NothingAckedIsLostExactly(capacity, BareAll(steps));
    DeliveredIsOnTopic(capacity, steps);
    assert m in multiset(w.acked);
    assert m in multiset(w.delivered) || m in multiset(w.fields.buffer) || m in Sink.Held(w.calls);
    if m in Sink.Held(w.calls) {
      HeldIsInFlight(w.calls, m);
    }
  }

  /** One publish at a time. */
  lemma {:induction false} SequentialLosesNothing(capacity: nat, steps: seq<Publishing>, m: Message)
    requires Sink.Sequential(capacity, BareAll(steps))
    requires m in Collected(capacity, steps).collector.acked
    ensures var p := Collected(capacity, steps);
            m in p.topic || m in p.collector.fields.buffer || InFlight(p.collector.calls, m)
  {
    Sink.SequentialNeverOverwrites(capacity, BareAll(steps));
    AcknowledgedIsSomewhere(capacity, steps, m);
  }

  /* ---------------- duplicates are invisible ---------------- */

  lemma {:induction false} SameMessagesSameRows(fate: Fates, a: seq<Message>, b: seq<Message>, c: Cluster)
    requires forall m :: m in a <==> m in b
    ensures forall r :: r in RowsOnce(fate, a, c) <==> r in RowsOnce(fate, b, c)
  {
    RowsOnceAre(fate, a, c);
    RowsOnceAre(fate, b, c);
    forall r
      ensures RowHasSource(fate, a, c, r) ==> RowHasSource(fate, b, c, r)
      ensures RowHasSource(fate, b, c, r) ==> RowHasSource(fate, a, c, r)
    {
      SourceMoves(fate, a, b, c, r);
      SourceMoves(fate, b, a, c, r);
    }
  }

  lemma {:induction false} SourceMoves(fate: Fates, a: seq<Message>, b: seq<Message>, c: Cluster, r: EventRow)
    requires forall m | m in a :: m in b
    ensures RowHasSource(fate, a, c, r) ==> RowHasSource(fate, b, c, r)
  {
    if RowHasSource(fate, a, c, r) {
      var o :| 0 <= o < |a| && fate(a[o]) == Stored(c, r);
      assert a[o] in b;
    }
  }

  /** Where same-key messages give the same row, repeats and order leave the exactly-once view alone. */
  lemma {:induction false} SameMessagesSameView(fate: Fates, a: seq<Message>, b: seq<Message>, c: Cluster)
    requires KeysIdentify(fate, a) && forall m :: m in a <==> m in b
    ensures Final(RowsOnce(fate, a, c)) == Final(RowsOnce(fate, b, c))
  {
    RowsOnceConsistent(fate, a, c);
    SameMessagesSameRows(fate, a, b, c);
    FinalOfSameRows(RowsOnce(fate, a, c), RowsOnce(fate, b, c));
  }

  /* ---------------- end to end ---------------- */

  /** The collector is quiet, and the consumer has committed the whole topic without giving up an insert. */
  ghost predicate Caught(p: Path, s: System) {
    && p.collector.calls == map[] && p.collector.fields.buffer == []
    && s.log == p.topic && s.committed == |s.log|
    && forall d <- s.dlq :: d.reason != InsertFailed
  }

  lemma {:induction false} AcknowledgedIsOnTopic(capacity: nat, steps: seq<Publishing>)
    requires Sink.NoOverwrite(capacity, BareAll(steps))
    requires Collected(capacity, steps).collector.calls == map[]
    requires Collected(capacity, steps).collector.fields.buffer == []
    ensures var p := Collected(capacity, steps);
            forall m | m in p.collector.acked :: m in p.topic
  {
    forall m | m in Collected(capacity, steps).collector.acked
      ensures m in Collected(capacity, steps).topic
    {
      AcknowledgedIsSomewhere(capacity, steps, m);
    }
  }

  lemma {:induction false} RowIsShown(rows: seq<EventRow>, row: EventRow)
    requires Consistent(rows) && row in rows
    ensures KeyOf(row) in Final(rows) && Final(rows)[KeyOf(row)] == row
  {
    FinalKeys(rows);
    var i :| 0 <= i < |rows| && rows[i] == row;
    var j :| 0 <= j < |rows| && rows[j] == Final(rows)[KeyOf(row)];
    assert KeyOf(rows[i]) == KeyOf(rows[j]);
  }

  /** Every acknowledged event that maps is then shown by the cluster it routes to, with its own row. */
  lemma {:induction false} AcknowledgedIsShown(capacity: nat, steps: seq<Publishing>, fate: Fates, hs: seq<Happening>,
                                               m: Message)
    requires Sink.NoOverwrite(capacity, BareAll(steps))
    requires Caught(Collected(capacity, steps), History(fate, hs))
    requires KeysIdentify(fate, Collected(capacity, steps).topic)
    requires m in Collected(capacity, steps).collector.acked && fate(m).Stored?
    ensures var (row, shown) := (fate(m).row, Final(History(fate, hs).tables.At(fate(m).cluster).rows));
            KeyOf(row) in shown && shown[KeyOf(row)] == row
  {
    var (topic, c, row) := (Collected(capacity, steps).topic, fate(m).cluster, fate(m).row);
    AcknowledgedIsOnTopic(capacity, steps);
    EffectivelyOnce(fate, hs, c);
    RowsOnceAre(fate, topic, c);
    assert RowHasSource(fate, topic, c, row);
    RowsOnceConsistent(fate, topic, c);
    RowIsShown(RowsOnce(fate, topic, c), row);
  }

  /**
   * Where moreover every message that got onto the topic was acknowledged in the end, each cluster shows
   * exactly the view of processing the acknowledged events once each, in the order of the answers.
   */
  lemma {:induction false} AcknowledgedOnce(capacity: nat, steps: seq<Publishing>, fate: Fates, hs: seq<Happening>,
                                            c: Cluster)
    requires Sink.NoOverwrite(capacity, BareAll(steps))
    requires Caught(Collected(capacity, steps), History(fate, hs))
    requires KeysIdentify(fate, Collected(capacity, steps).topic)
    requires var p := Collected(capacity, steps); forall m | m in p.topic :: m in p.collector.acked
    ensures Final(History(fate, hs).tables.At(c).rows)
         == Final(RowsOnce(fate, Collected(capacity, steps).collector.acked, c))
  {
    var p := Collected(capacity, steps);
    AcknowledgedIsOnTopic(capacity, steps);
    EffectivelyOnce(fate, hs, c);
    SameMessagesSameView(fate, p.topic, p.collector.acked, c);
  }
}
