/**
 * One user's journey through a funnel (new-repo-handoff/quarry/funnel-analysis-engine.ts): steps in
 * order, each completed by the first later event that matches it.
 */
module Funnel {
  import opened Wrappers
  import opened Sorting

  datatype Event = Event(eventType: string, timestamp: int, properties: map<string, string>)

  /** A condition is any test of an event. */
  datatype Step = Step(id: string, eventType: string, conditions: seq<Event -> bool>, order: int)

  datatype Completion = Completion(
    stepId: string,
    stepOrder: int,
    completedAt: int,
    timeSincePrevious: Option<int>,
    timeSinceStart: int)

  datatype Journey = Journey(
    startTime: int,
    completedSteps: seq<Completion>,
    endTime: Option<int>,
    conversionTime: Option<int>,
    dropoffStep: Option<int>)

  /** evaluateStepConditions, with the type test of its caller. */
  predicate Completes(step: Step, event: Event) {
    && event.eventType == step.eventType
    && forall i | 0 <= i < |step.conditions| :: step.conditions[i](event)
  }

  predicate Later(event: Event, last: Option<int>) {
    last.Some? ==> last.value < event.timestamp
  }

  function Timestamp(): Event -> real {
    (e: Event) => e.timestamp as real
  }

  function Order(): Step -> real {
    (s: Step) => s.order as real
  }

  /** The first listed event that completes the step after the given time. */
  function FirstMatch(step: Step, events: seq<Event>, last: Option<int>): Option<Event> {
    if events == [] then None
    else if Completes(step, events[0]) && Later(events[0], last) then Some(events[0])
    else FirstMatch(step, events[1..], last)
  }

  /** The events that complete the first steps, as many as can be found in turn. */
  function Greedy(steps: seq<Step>, events: seq<Event>, last: Option<int>): (found: seq<Event>)
    ensures |found| <= |steps|
  {
    if steps == [] then []
    else
      match FirstMatch(steps[0], events, last)
      case None => []
      case Some(event) => [event] + Greedy(steps[1..], events, Some(event.timestamp))
  }

  function LastTime(found: seq<Event>): Option<int> {
    if found == [] then None else Some(found[|found| - 1].timestamp)
  }

  function NextCompletion(step: Step, event: Event, last: Option<int>, start: int): Completion {
    Completion(step.id, step.order, event.timestamp,
               if last.None? then None else Some(event.timestamp - last.value), event.timestamp - start)
  }

  function Completed(steps: seq<Step>, found: seq<Event>, start: int): (done: seq<Completion>)
    requires |found| <= |steps|
    ensures |done| == |found|
    ensures forall i | 0 <= i < |found| ::
              && done[i].stepId == steps[i].id
              && done[i].completedAt == found[i].timestamp
              && done[i].timeSinceStart == found[i].timestamp - start
  {
    if found == [] then []
    else
      var front := found[..|found| - 1];
      Completed(steps, front, start) + [NextCompletion(steps[|front|], found[|front|], LastTime(front), start)]
  }

  function JourneyOf(events: seq<Event>, unordered: seq<Step>): Option<Journey> {
    var sorted := Sorted(Timestamp(), events);
    if sorted == [] then None
    else
      var steps := Sorted(Order(), unordered);
      var found := Greedy(steps, sorted, None);
      var start := sorted[0].timestamp;
      var end := if found == [] then None else Some(found[|found| - 1].timestamp);
      Some(Journey(
        start,
        Completed(steps, found, start),
        end,
        if found != [] && |found| == |steps| then Some(end.value - start) else None,
        if |found| < |steps| then Some(steps[|found|].order) else None))
  }

  /* ---------------- the loops ---------------- */

  lemma {:induction false} NoMatchBefore(step: Step, events: seq<Event>, last: Option<int>, i: nat)
    requires i <= |events|
    requires forall j | 0 <= j < i :: !(Completes(step, events[j]) && Later(events[j], last))
    ensures FirstMatch(step, events, last) == FirstMatch(step, events[i..], last)
  {
    if 0 < i {
      NoMatchBefore(step, events[1..], last, i - 1);
      assert events[1..][i - 1..] == events[i..];
    } else {
      assert events[i..] == events;
    }
  }

  method FindStepCompletionEvent(step: Step, events: seq<Event>, completed: seq<Completion>)
    returns (r: Option<Event>)
    ensures r == FirstMatch(step, events,
                            if completed == [] then None else Some(completed[|completed| - 1].completedAt))
  {
    ghost var last := if completed == [] then None else Some(completed[|completed| - 1].completedAt);
    for i := 0 to |events|
      invariant forall j | 0 <= j < i :: !(Completes(step, events[j]) && Later(events[j], last))
    {
      var event := events[i];
      if Completes(step, event) {
        if 0 < |completed| && event.timestamp <= completed[|completed| - 1].completedAt {
          continue;
        }
        NoMatchBefore(step, events, last, i);
        return Some(event);
      }
    }
    NoMatchBefore(step, events, last, |events|);
    r := None;
  }

  lemma {:induction false} CompletedOneMore(steps: seq<Step>, found: seq<Event>, event: Event, start: int)
    requires |found| < |steps|
    ensures Completed(steps, found + [event], start)
         == Completed(steps, found, start) + [NextCompletion(steps[|found|], event, LastTime(found), start)]
  {
    assert (found + [event])[..|found|] == found;
  }

  method CompleteStep(steps: seq<Step>, sorted: seq<Event>, completed: seq<Completion>, start: int,
                      ghost found: seq<Event>)
    returns (next: Option<Completion>)
    requires |found| < |steps| && completed == Completed(steps, found, start)
    ensures var event := FirstMatch(steps[|found|], sorted, LastTime(found));
            next == if event.None? then None
                    else Some(NextCompletion(steps[|found|], event.value, LastTime(found), start))
  {
    var step := steps[|completed|];
    var matching := FindStepCompletionEvent(step, sorted, completed);
    if matching.None? {
      return None;
    }
    var event := matching.value;
    var previous :=
      if 0 < |completed| then Some(event.timestamp - completed[|completed| - 1].completedAt) else None;
    next := Some(Completion(step.id, step.order, event.timestamp, previous, event.timestamp - start));
  }

  /** After k steps: the rest of the greedy choice is the greedy choice of the rest. */
  ghost predicate Progress(steps: seq<Step>, sorted: seq<Event>, all: seq<Event>, k: nat) {
    && k <= |steps| && k <= |all|
    && Greedy(steps[k..], sorted, LastTime(all[..k])) == all[k..]
  }

  lemma {:induction false} ProgressStep(steps: seq<Step>, sorted: seq<Event>, all: seq<Event>, k: nat)
    requires Progress(steps, sorted, all, k) && k < |steps|
    ensures match FirstMatch(steps[k], sorted, LastTime(all[..k]))
            case None => all[..k] == all
            case Some(event) => k < |all| && all[k] == event && Progress(steps, sorted, all, k + 1)
  {
    assert steps[k..][1..] == steps[k + 1..];
    if k < |all| {
      assert all[k..][1..] == all[k + 1..];
      assert LastTime(all[..k + 1]) == Some(all[k].timestamp);
    }
  }

  method CompleteSteps(steps: seq<Step>, sorted: seq<Event>, start: int)
    returns (completed: seq<Completion>, dropoff: Option<int>)
    ensures var found := Greedy(steps, sorted, None);
            && completed == Completed(steps, found, start)
            && dropoff == if |found| < |steps| then Some(steps[|found|].order) else None
  {
    completed, dropoff := [], None;
    ghost var all := Greedy(steps, sorted, None);
    assert steps[0..] == steps && all[0..] == all;
    for k := 0 to |steps|
      invariant Progress(steps, sorted, all, k)
      invariant completed == Completed(steps, all[..k], start)
      invariant dropoff == None
    {
      ProgressStep(steps, sorted, all, k);
      var next := CompleteStep(steps, sorted, completed, start, all[..k]);
      if next.None? {
        return completed, Some(steps[k].order);
      }
      CompletedOneMore(steps, all[..k], all[k], start);
      assert all[..k] + [all[k]] == all[..k + 1];
      completed := completed + [next.value];
    }
    assert all[..|steps|] == all;
  }

  method CreateUserJourney(events: seq<Event>, unordered: seq<Step>) returns (r: Option<Journey>)
    ensures r == JourneyOf(events, unordered)
  {
    var sorted := Sorted(Timestamp(), events);
    if sorted == [] {
      return None;
    }
    var start := sorted[0].timestamp;
    var steps := Sorted(Order(), unordered);
    var completed, dropoff := CompleteSteps(steps, sorted, start);
    var end, conversion: Option<int> := None, None;
    if 0 < |completed| {
      end := Some(completed[|completed| - 1].completedAt);
      if |completed| == |steps| {
        conversion := Some(end.value - start);
      }
    }
    r := Some(Journey(start, completed, end, conversion, dropoff));
  }

  /* ---------------- greedy matching is optimal ---------------- */

  /** Events that complete the first |chain| steps in turn, at strictly increasing times after last. */
  ghost predicate Chain(steps: seq<Step>, events: seq<Event>, last: Option<int>, chain: seq<Event>) {
    && |chain| <= |steps|
    && (forall i | 0 <= i < |chain| :: chain[i] in events && Completes(steps[i], chain[i]))
    && (forall i, k | 0 <= i < k < |chain| :: chain[i].timestamp < chain[k].timestamp)
    && (chain != [] ==> Later(chain[0], last))
  }

  lemma {:induction false} FirstMatchIsEarliest(step: Step, events: seq<Event>, last: Option<int>, event: Event)
    requires Ordered(Timestamp(), events)
    requires event in events && Completes(step, event) && Later(event, last)
    ensures var first := FirstMatch(step, events, last);
            first.Some? && first.value.timestamp <= event.timestamp
  {
    if !(Completes(step, events[0]) && Later(events[0], last)) {
      FirstMatchIsEarliest(step, events[1..], last, event);
    } else {
      var i :| 0 <= i < |events| && events[i] == event;
      assert Timestamp()(events[0]) <= Timestamp()(events[i]);
    }
  }

  lemma {:induction false} FirstMatchMatches(step: Step, events: seq<Event>, last: Option<int>)
    ensures var first := FirstMatch(step, events, last);
            first.Some? ==> first.value in events && Completes(step, first.value) && Later(first.value, last)
  {
    if events != [] {
      FirstMatchMatches(step, events[1..], last);
    }
  }

  /** The exchange argument: replacing a chain's first event by the greedy one leaves the rest a chain. */
  lemma {:induction false} GreedyBeatsChain(steps: seq<Step>, events: seq<Event>, last: Option<int>, chain: seq<Event>)
    requires Ordered(Timestamp(), events)
    requires Chain(steps, events, last, chain)
    ensures var found := Greedy(steps, events, last);
            && |chain| <= |found|
            && forall i | 0 <= i < |chain| :: found[i].timestamp <= chain[i].timestamp
  {
    if chain != [] {
      FirstMatchIsEarliest(steps[0], events, last, chain[0]);
      var first := FirstMatch(steps[0], events, last).value;
      var rest := chain[1..];
      GreedyBeatsChain(steps[1..], events, Some(first.timestamp), rest);
      var found, later := Greedy(steps, events, last), Greedy(steps[1..], events, Some(first.timestamp));
      forall i | 0 <= i < |chain|
        ensures found[i].timestamp <= chain[i].timestamp
      {
        if 0 < i {
          assert found[i] == later[i - 1] && chain[i] == rest[i - 1];
        }
      }
    }
  }

  lemma {:induction false} GreedyIsChain(steps: seq<Step>, events: seq<Event>, last: Option<int>)
    ensures Chain(steps, events, last, Greedy(steps, events, last))
  {
    if steps != [] {
      FirstMatchMatches(steps[0], events, last);
      var first := FirstMatch(steps[0], events, last);
      if first.Some? {
        var t := Some(first.value.timestamp);
        GreedyIsChain(steps[1..], events, t);
        var found, later := Greedy(steps, events, last), Greedy(steps[1..], events, t);
        assert found[1..] == later;
        forall i | 0 <= i < |found|
          ensures found[i] in events && Completes(steps[i], found[i])
        {
          if 0 < i {
            assert found[i] == later[i - 1];
          }
        }
        forall i, k | 0 <= i < k < |found|
          ensures found[i].timestamp < found[k].timestamp
        {
          assert found[k] == later[k - 1];
          assert Later(later[0], t);
          if 0 < i {
            assert found[i] == later[i - 1];
          }
        }
      }
    }
  }

  /** The same chain, whether the events are listed as they came or by time. */
  lemma {:induction false} ChainInAnyOrder(steps: seq<Step>, events: seq<Event>, chain: seq<Event>)
    ensures Chain(steps, events, None, chain) <==> Chain(steps, Sorted(Timestamp(), events), None, chain)
  {
    forall i | 0 <= i < |chain|
      ensures chain[i] in events <==> chain[i] in Sorted(Timestamp(), events)
    {
      SameElements(Timestamp(), events, chain[i]);
    }
  }

  /**
   * If any strictly time-increasing chain of the user's events matches the first k steps, the journey
   * completes at least k steps, each no later than the chain does.
   */
  lemma {:induction false} JourneyIsOptimal(events: seq<Event>, unordered: seq<Step>, chain: seq<Event>)
    requires events != []
    requires Chain(Sorted(Order(), unordered), events, None, chain)
    ensures var journey := JourneyOf(events, unordered);
            && journey.Some?
            && |chain| <= |journey.value.completedSteps|
            && forall i | 0 <= i < |chain| :: journey.value.completedSteps[i].completedAt <= chain[i].timestamp
  {
    ChainInAnyOrder(Sorted(Order(), unordered), events, chain);
    SortedKeepsAll(Timestamp(), events);
    SortedIsOrdered(Timestamp(), events);
    GreedyBeatsChain(Sorted(Order(), unordered), Sorted(Timestamp(), events), None, chain);
  }

  /** And what it reports did happen: its completion times are those of such a chain. */
  lemma {:induction false} JourneyIsAchieved(events: seq<Event>, unordered: seq<Step>) returns (chain: seq<Event>)
    requires events != []
    ensures Chain(Sorted(Order(), unordered), events, None, chain)
    ensures var journey := JourneyOf(events, unordered);
            && journey.Some?
            && |chain| == |journey.value.completedSteps|
            && forall i | 0 <= i < |chain| :: journey.value.completedSteps[i].completedAt == chain[i].timestamp
  {
    var steps := Sorted(Order(), unordered);
    chain := Greedy(steps, Sorted(Timestamp(), events), None);
    GreedyIsChain(steps, Sorted(Timestamp(), events), None);
    ChainInAnyOrder(steps, events, chain);
    SortedKeepsAll(Timestamp(), events);
  }

  /** The order in which a user's events arrive changes neither what is completed nor when. */
  lemma {:induction false} ArrivalOrderIsIrrelevant(events: seq<Event>, shuffled: seq<Event>, unordered: seq<Step>)
    requires events != [] && multiset(events) == multiset(shuffled)
    ensures var a, b := JourneyOf(events, unordered), JourneyOf(shuffled, unordered);
            && a.Some? && b.Some?
            && |a.value.completedSteps| == |b.value.completedSteps|
            && forall i | 0 <= i < |a.value.completedSteps| ::
                 a.value.completedSteps[i].completedAt == b.value.completedSteps[i].completedAt
  {
    assert |multiset(events)| == |events|;
    var a := JourneyIsAchieved(events, unordered);
    var b := JourneyIsAchieved(shuffled, unordered);
    forall e: Event
      ensures e in events <==> e in shuffled
    {
      assert e in events <==> e in multiset(events);
      assert e in shuffled <==> e in multiset(shuffled);
    }
    JourneyIsOptimal(shuffled, unordered, a);
    JourneyIsOptimal(events, unordered, b);
  }

  lemma {:induction false} StartIsEarliest(events: seq<Event>, e: Event)
    requires e in events
    ensures var sorted := Sorted(Timestamp(), events);
            sorted != [] && sorted[0].timestamp <= e.timestamp
  {
    var sorted := Sorted(Timestamp(), events);
    SameElements(Timestamp(), events, e);
    SortedIsOrdered(Timestamp(), events);
    var i :| 0 <= i < |sorted| && sorted[i] == e;
    assert Timestamp()(sorted[0]) <= Timestamp()(sorted[i]);
  }

  /** Step k took positive time, and times since the start add up. */
  predicate FollowsPrevious(done: seq<Completion>, k: nat)
    requires 1 <= k < |done|
  {
    && done[k].timeSincePrevious.Some? && done[k].timeSincePrevious.value > 0
    && done[k].timeSinceStart == done[k - 1].timeSinceStart + done[k].timeSincePrevious.value
  }

  ghost predicate TimesAgree(start: int, done: seq<Completion>) {
    && (forall i | 0 <= i < |done| :: done[i].timeSinceStart == done[i].completedAt - start >= 0)
    && (forall k | 1 <= k < |done| :: FollowsPrevious(done, k))
  }

  lemma {:induction false} TimesFromChain(steps: seq<Step>, found: seq<Event>, start: int, k: nat)
    requires 1 <= k < |found| <= |steps|
    requires forall i, j | 0 <= i < j < |found| :: found[i].timestamp < found[j].timestamp
    ensures FollowsPrevious(Completed(steps, found, start), k)
  {
    var n := |found| - 1;
    var front := Completed(steps, found[..n], start);
    if k < n {
      TimesFromChain(steps, found[..n], start, k);
      assert Completed(steps, found, start)[..n] == front;
      assert Completed(steps, found, start)[k - 1] == front[k - 1];
    } else {
      assert found[n - 1].timestamp < found[n].timestamp;
    }
  }

  /** The recorded times hang together: no step before the first event, none at the time of the one before. */
  lemma {:induction false} JourneyTimesAgree(events: seq<Event>, unordered: seq<Step>)
    requires events != []
    ensures var journey := JourneyOf(events, unordered);
            && journey.Some?
            && (forall e | e in events :: journey.value.startTime <= e.timestamp)
            && TimesAgree(journey.value.startTime, journey.value.completedSteps)
  {
    SortedKeepsAll(Timestamp(), events);
    var steps, sorted := Sorted(Order(), unordered), Sorted(Timestamp(), events);
    var found := Greedy(steps, sorted, None);
    GreedyIsChain(steps, sorted, None);
    forall e | e in events
      ensures sorted[0].timestamp <= e.timestamp
    {
      StartIsEarliest(events, e);
    }
    forall i | 0 <= i < |found|
      ensures sorted[0].timestamp <= found[i].timestamp
    {
      assert found[i] in sorted;
      SameElements(Timestamp(), events, found[i]);
    }
    var done := Completed(steps, found, sorted[0].timestamp);
    forall k | 1 <= k < |done|
      ensures FollowsPrevious(done, k)
    {
      TimesFromChain(steps, found, sorted[0].timestamp, k);
    }
  }

  /** A drop-off is recorded exactly for an unfinished journey, a conversion time exactly for a finished one. */
  lemma {:induction false} DropoffOrConversion(events: seq<Event>, unordered: seq<Step>)
    requires events != []
    ensures var journey := JourneyOf(events, unordered);
            && journey.Some?
            && var (j, done) := (journey.value, journey.value.completedSteps);
               && (j.dropoffStep.Some? <==> |done| < |unordered|)
               && (j.conversionTime.Some? <==> done != [] && |done| == |unordered|)
               && (j.conversionTime.Some? ==> j.conversionTime.value == done[|done| - 1].timeSinceStart)
               && (j.dropoffStep.Some? ==> j.dropoffStep.value == Sorted(Order(), unordered)[|done|].order)
               && j.endTime == (if done == [] then None else Some(done[|done| - 1].completedAt))
               && forall i | 0 <= i < |done| :: done[i].stepOrder == Sorted(Order(), unordered)[i].order
  {
    SortedKeepsAll(Timestamp(), events);
    SortedKeepsAll(Order(), unordered);
    var steps, sorted := Sorted(Order(), unordered), Sorted(Timestamp(), events);
    OrdersAreOfSteps(steps, Greedy(steps, sorted, None), sorted[0].timestamp);
  }

  lemma {:induction false} OrdersAreOfSteps(steps: seq<Step>, found: seq<Event>, start: int)
    requires |found| <= |steps|
    ensures forall i | 0 <= i < |found| :: Completed(steps, found, start)[i].stepOrder == steps[i].order
  {
    if found != [] {
      OrdersAreOfSteps(steps, found[..|found| - 1], start);
    }
  }
}
