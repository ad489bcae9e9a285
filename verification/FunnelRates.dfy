/**
 * Step results and overall metrics over a set of journeys
 * (new-repo-handoff/quarry/funnel-analysis-engine.ts), with rates over the reals.
 */
module FunnelRates {
  import opened Wrappers
  import opened Reals
  import opened Sorting
  import opened Funnel

  /** What validateFunnelDefinition lets through, as far as steps go. */
  predicate Validated(steps: seq<Step>) {
    && 2 <= |steps| <= 20
    && forall i, j | 0 <= i < j < |steps| :: steps[i].order != steps[j].order
  }

  ghost predicate DistinctIds(steps: seq<Step>) {
    forall i, j | 0 <= i < j < |steps| :: steps[i].id != steps[j].id
  }

  /** A journey's completed steps are the first ones of the funnel, in step order. */
  ghost predicate WalksFunnel(steps: seq<Step>, j: Journey) {
    && |j.completedSteps| <= |steps|
    && forall i | 0 <= i < |j.completedSteps| :: j.completedSteps[i].stepId == steps[i].id
  }

  ghost predicate AllWalkFunnel(steps: seq<Step>, journeys: seq<Journey>) {
    forall i | 0 <= i < |journeys| :: WalksFunnel(steps, journeys[i])
  }

  /** Journeys that pass a test. */
  function Count(journeys: seq<Journey>, p: Journey -> bool): (n: nat)
    ensures n <= |journeys|
  {
    if journeys == [] then 0
    else Count(journeys[..|journeys| - 1], p) + if p(journeys[|journeys| - 1]) then 1 else 0
  }

  predicate Completed(j: Journey, stepId: string) {
    exists i | 0 <= i < |j.completedSteps| :: j.completedSteps[i].stepId == stepId
  }

  function Reaching(journeys: seq<Journey>, stepId: string): nat {
    Count(journeys, (j: Journey) => Completed(j, stepId))
  }

  /** Journeys with at least n completed steps. */
  function AtLeast(journeys: seq<Journey>, n: int): nat {
    Count(journeys, (j: Journey) => |j.completedSteps| >= n)
  }

  function FromPrevious(journeys: seq<Journey>, order: int): nat {
    if order == 1 then |journeys| else AtLeast(journeys, order - 1)
  }

  function Ratio(part: nat, whole: nat): real {
    if whole > 0 then part as real / whole as real else 0.0
  }

  datatype StepResult = StepResult(stepId: string, userCount: nat, conversionRate: real, dropoffRate: real)

  function ResultOf(journeys: seq<Journey>, step: Step): StepResult {
    var rate := Ratio(Reaching(journeys, step.id), FromPrevious(journeys, step.order));
    StepResult(step.id, Reaching(journeys, step.id), rate, 1.0 - rate)
  }

  /** Steps are already in step order here. */
  function StepResults(journeys: seq<Journey>, steps: seq<Step>): (r: seq<StepResult>)
    ensures |r| == |steps|
    ensures forall i | 0 <= i < |steps| :: r[i] == ResultOf(journeys, steps[i])
  {
    if steps == [] then []
    else StepResults(journeys, steps[..|steps| - 1]) + [ResultOf(journeys, steps[|steps| - 1])]
  }

  datatype Overall = Overall(totalUsers: nat, completionRate: real, dropoffRate: real)

  function Finished(journeys: seq<Journey>, stepCount: nat): nat {
    Count(journeys, (j: Journey) => |j.completedSteps| == stepCount)
  }

  function OverallMetrics(journeys: seq<Journey>, stepCount: nat): Overall {
    var rate := Ratio(Finished(journeys, stepCount), |journeys|);
    Overall(|journeys|, rate, 1.0 - rate)
  }

  method CountReaching(journeys: seq<Journey>, stepId: string) returns (n: nat)
    ensures n == Reaching(journeys, stepId)
  {
    n := 0;
    for i := 0 to |journeys|
      invariant n == Reaching(journeys[..i], stepId)
    {
      assert journeys[..i + 1][..i] == journeys[..i];
      if Completed(journeys[i], stepId) {
        n := n + 1;
      }
    }
    assert journeys[..|journeys|] == journeys;
  }

  method CountAtLeast(journeys: seq<Journey>, least: int) returns (n: nat)
    ensures n == AtLeast(journeys, least)
  {
    n := 0;
    for i := 0 to |journeys|
      invariant n == AtLeast(journeys[..i], least)
    {
      assert journeys[..i + 1][..i] == journeys[..i];
      if |journeys[i].completedSteps| >= least {
        n := n + 1;
      }
    }
    assert journeys[..|journeys|] == journeys;
  }

  method CalculateStepResult(journeys: seq<Journey>, step: Step) returns (result: StepResult)
    ensures result == ResultOf(journeys, step)
  {
    var userCount := CountReaching(journeys, step.id);
    var previous: nat := |journeys|;
    if step.order != 1 {
      previous := CountAtLeast(journeys, step.order - 1);
    }
    var rate := if previous > 0 then userCount as real / previous as real else 0.0;
    result := StepResult(step.id, userCount, rate, 1.0 - rate);
  }

  method CalculateStepResults(journeys: seq<Journey>, unordered: seq<Step>) returns (results: seq<StepResult>)
    ensures results == StepResults(journeys, Sorted(Order(), unordered))
  {
    var steps := Sorted(Order(), unordered);
    results := [];
    for k := 0 to |steps|
      invariant results == StepResults(journeys, steps[..k])
    {
      var result := CalculateStepResult(journeys, steps[k]);
      assert steps[..k + 1][..k] == steps[..k];
      results := results + [result];
    }
    assert steps[..|steps|] == steps;
  }

  method CalculateOverallMetrics(journeys: seq<Journey>, stepCount: nat) returns (overall: Overall)
    ensures overall == OverallMetrics(journeys, stepCount)
  {
    var completed := 0;
    for i := 0 to |journeys|
      invariant completed == Finished(journeys[..i], stepCount)
    {
      assert journeys[..i + 1][..i] == journeys[..i];
      if |journeys[i].completedSteps| == stepCount {
        completed := completed + 1;
      }
    }
    assert journeys[..|journeys|] == journeys;
    var rate := if |journeys| > 0 then completed as real / |journeys| as real else 0.0;
    overall := Overall(|journeys|, rate, 1.0 - rate);
  }

  /* ---------------- counts ---------------- */

  lemma {:induction false} CountOrder(journeys: seq<Journey>, p: Journey -> bool, q: Journey -> bool)
    requires forall i | 0 <= i < |journeys| :: p(journeys[i]) ==> q(journeys[i])
    ensures Count(journeys, p) <= Count(journeys, q)
  {
    if journeys != [] {
      CountOrder(journeys[..|journeys| - 1], p, q);
    }
  }

  /** The first place from i on with the id of place k. */
  function PlaceFrom(steps: seq<Step>, k: nat, i: nat): (f: nat)
    requires i <= k < |steps|
    requires forall p | 0 <= p < i :: steps[p].id != steps[k].id
    ensures i <= f <= k && steps[f].id == steps[k].id
    ensures forall p | 0 <= p < f :: steps[p].id != steps[k].id
    decreases k - i
  {
    if steps[i].id == steps[k].id then i else PlaceFrom(steps, k, i + 1)
  }

  /** The first place with the id of place k. */
  function First(steps: seq<Step>, k: nat): (f: nat)
    requires k < |steps|
    ensures f <= k && steps[f].id == steps[k].id
    ensures forall p | 0 <= p < f :: steps[p].id != steps[k].id
  {
    PlaceFrom(steps, k, 0)
  }

  /** Completing a step, as the engine finds out by its id, is having got to the first step with that id. */
  lemma {:induction false} CompletedIsLength(steps: seq<Step>, j: Journey, k: nat)
    requires WalksFunnel(steps, j) && k < |steps|
    ensures Completed(j, steps[k].id) <==> First(steps, k) < |j.completedSteps|
  {
    var f := First(steps, k);
    if f < |j.completedSteps| {
      assert j.completedSteps[f].stepId == steps[f].id;
    }
  }

  lemma {:induction false} ReachingIsAtLeast(steps: seq<Step>, journeys: seq<Journey>, k: nat)
    requires AllWalkFunnel(steps, journeys) && k < |steps|
    ensures Reaching(journeys, steps[k].id) == AtLeast(journeys, First(steps, k) + 1)
  {
    var f := First(steps, k);
    forall i | 0 <= i < |journeys|
      ensures Completed(journeys[i], steps[k].id) <==> f + 1 <= |journeys[i].completedSteps|
    {
      CompletedIsLength(steps, journeys[i], k);
    }
    CountOrder(journeys, (j: Journey) => Completed(j, steps[k].id), (j: Journey) => |j.completedSteps| >= f + 1);
    CountOrder(journeys, (j: Journey) => |j.completedSteps| >= f + 1, (j: Journey) => Completed(j, steps[k].id));
  }

  lemma {:induction false} FirstIsSelf(steps: seq<Step>, k: nat)
    requires DistinctIds(steps) && k < |steps|
    ensures First(steps, k) == k
  {
    assert forall p | 0 <= p < k :: steps[p].id != steps[k].id;
  }

  lemma {:induction false} AtLeastFalls(journeys: seq<Journey>, m: int, n: int)
    requires m <= n
    ensures AtLeast(journeys, n) <= AtLeast(journeys, m) <= |journeys|
  {
    CountOrder(journeys, (j: Journey) => |j.completedSteps| >= n, (j: Journey) => |j.completedSteps| >= m);
  }

  lemma {:induction false} AtLeastNone(journeys: seq<Journey>, n: int)
    requires n <= 0
    ensures AtLeast(journeys, n) == |journeys|
  {
    if journeys != [] {
      AtLeastNone(journeys[..|journeys| - 1], n);
    }
  }

  lemma {:induction false} FinishedIsAtLeast(steps: seq<Step>, journeys: seq<Journey>)
    requires AllWalkFunnel(steps, journeys)
    ensures Finished(journeys, |steps|) == AtLeast(journeys, |steps|)
  {
    CountOrder(journeys, (j: Journey) => |j.completedSteps| == |steps|, (j: Journey) => |j.completedSteps| >= |steps|);
    CountOrder(journeys, (j: Journey) => |j.completedSteps| >= |steps|, (j: Journey) => |j.completedSteps| == |steps|);
  }

  lemma {:induction false} JourneysWalkFunnel(events: seq<Event>, unordered: seq<Step>)
    requires events != []
    ensures var journey := JourneyOf(events, unordered);
            journey.Some? && WalksFunnel(Sorted(Order(), unordered), journey.value)
  {
    SortedKeepsAll(Timestamp(), events);
  }

  /* ---------------- what a result says ---------------- */

  /** The journeys that pass a test, by place. */
  function Passing(journeys: seq<Journey>, p: Journey -> bool): set<nat> {
    set i: nat | i < |journeys| && p(journeys[i])
  }

  lemma {:induction false} CountIsSize(journeys: seq<Journey>, p: Journey -> bool)
    ensures Count(journeys, p) == |Passing(journeys, p)|
  {
    if journeys == [] {
      assert Passing(journeys, p) == {};
    } else {
      var n := |journeys| - 1;
      CountIsSize(journeys[..n], p);
      assert Passing(journeys, p) == Passing(journeys[..n], p) + if p(journeys[n]) then {n} else {};
    }
  }

  /** The rate is the share of the whole, and zero where there is none. */
  predicate IsShare(rate: real, part: nat, whole: nat) {
    if whole == 0 then rate == 0.0 else rate * whole as real == part as real
  }

  lemma {:induction false} RatioIsShare(part: nat, whole: nat)
    ensures IsShare(Ratio(part, whole), part, whole)
  {
    if 0 < whole {
      Quotient(part as real, whole as real);
    }
  }

  lemma {:induction false} ReachingIsSize(journeys: seq<Journey>, stepId: string)
    ensures Reaching(journeys, stepId)
         == |Passing(journeys, (j: Journey) => exists c <- j.completedSteps :: c.stepId == stepId)|
  {
    var p := (j: Journey) => exists c <- j.completedSteps :: c.stepId == stepId;
    CountIsSize(journeys, p);
    forall i | 0 <= i < |journeys|
      ensures p(journeys[i]) <==> Completed(journeys[i], stepId)
    {
      CompletedHasCompletion(journeys[i], stepId);
    }
    CountAlike(journeys, p, (j: Journey) => Completed(j, stepId));
  }

  lemma {:induction false} AtLeastIsSize(journeys: seq<Journey>, n: int)
    ensures AtLeast(journeys, n) == |Passing(journeys, (j: Journey) => n <= |j.completedSteps|)|
  {
    var p := (j: Journey) => n <= |j.completedSteps|;
    CountIsSize(journeys, p);
    CountAlike(journeys, p, (j: Journey) => |j.completedSteps| >= n);
  }

  /**
   * A step's result: the users with a completion of that step, their share of all users for order 1 and else of
   * those with one completion fewer than the order, and what is left to 1.
   */
  lemma {:induction false} StepResultSays(journeys: seq<Journey>, unordered: seq<Step>, k: nat)
    requires k < |Sorted(Order(), unordered)|
    ensures var steps := Sorted(Order(), unordered);
            var (r, step) := (StepResults(journeys, steps)[k], steps[k]);
            var reaching := Passing(journeys, (j: Journey) => exists c <- j.completedSteps :: c.stepId == step.id);
            var base := if step.order == 1 then |journeys|
                        else |Passing(journeys, (j: Journey) => step.order - 1 <= |j.completedSteps|)|;
            && r.stepId == step.id
            && r.userCount == |reaching|
            && IsShare(r.conversionRate, |reaching|, base)
            && r.conversionRate + r.dropoffRate == 1.0
  {
    var step := Sorted(Order(), unordered)[k];
    ReachingIsSize(journeys, step.id);
    AtLeastIsSize(journeys, step.order - 1);
    RatioIsShare(Reaching(journeys, step.id), FromPrevious(journeys, step.order));
  }

  lemma {:induction false} CompletedHasCompletion(j: Journey, stepId: string)
    ensures Completed(j, stepId) <==> exists c <- j.completedSteps :: c.stepId == stepId
  {
    if Completed(j, stepId) {
      var i :| 0 <= i < |j.completedSteps| && j.completedSteps[i].stepId == stepId;
      assert j.completedSteps[i] in j.completedSteps;
    }
  }

  lemma {:induction false} CountAlike(journeys: seq<Journey>, p: Journey -> bool, q: Journey -> bool)
    requires forall i | 0 <= i < |journeys| :: p(journeys[i]) <==> q(journeys[i])
    ensures Count(journeys, p) == Count(journeys, q)
  {
    CountOrder(journeys, p, q);
    CountOrder(journeys, q, p);
  }

  /** The overall metrics: all users, the share with every step completed, and what is left to 1. */
  lemma {:induction false} OverallSays(journeys: seq<Journey>, stepCount: nat)
    ensures var o := OverallMetrics(journeys, stepCount);
            var finished := Passing(journeys, (j: Journey) => |j.completedSteps| == stepCount);
            && o.totalUsers == |journeys|
            && IsShare(o.completionRate, |finished|, |journeys|)
            && o.completionRate + o.dropoffRate == 1.0
  {
    CountIsSize(journeys, (j: Journey) => |j.completedSteps| == stepCount);
    RatioIsShare(Finished(journeys, stepCount), |journeys|);
  }

  /* ---------------- the funnel narrows ---------------- */

  /** With distinct ids the users reaching each step never increase along the funnel, whatever the step orders. */
  lemma {:induction false} FunnelNarrows(steps: seq<Step>, journeys: seq<Journey>, i: nat, k: nat)
    requires DistinctIds(steps) && AllWalkFunnel(steps, journeys)
    requires i <= k < |steps|
    ensures StepResults(journeys, steps)[k].userCount <= StepResults(journeys, steps)[i].userCount <= |journeys|
  {
    ReachingIsAtLeast(steps, journeys, i);
    ReachingIsAtLeast(steps, journeys, k);
    FirstIsSelf(steps, i);
    FirstIsSelf(steps, k);
    AtLeastFalls(journeys, i + 1, k + 1);
  }

  lemma RatioAtMostOne(part: nat, whole: nat)
    requires part <= whole
    ensures 0.0 <= Ratio(part, whole) <= 1.0
  {
  }

  /* ---------------- created journeys ---------------- */

  /** Journeys the engine creates: one for each user with events. */
  ghost predicate Created(unordered: seq<Step>, users: seq<seq<Event>>, journeys: seq<Journey>) {
    && |journeys| == |users|
    && forall i | 0 <= i < |users| :: users[i] != [] && JourneyOf(users[i], unordered) == Some(journeys[i])
  }

  lemma {:induction false} CreatedWalk(unordered: seq<Step>, users: seq<seq<Event>>, journeys: seq<Journey>)
    requires Created(unordered, users, journeys)
    ensures AllWalkFunnel(Sorted(Order(), unordered), journeys)
  {
    forall i | 0 <= i < |journeys|
      ensures WalksFunnel(Sorted(Order(), unordered), journeys[i])
    {
      JourneysWalkFunnel(users[i], unordered);
    }
  }

  /** Some user could complete the first l steps; any user completes none. */
  ghost predicate Reachable(steps: seq<Step>, l: int) {
    l <= 0 || exists chain: seq<Event> :: |chain| == l && Chain(steps, chain, None, chain)
  }

  lemma {:induction false} ChainPrefix(steps: seq<Step>, chain: seq<Event>, m: nat)
    requires Chain(steps, chain, None, chain) && 0 < m <= |chain|
    ensures Chain(steps, chain[..m], None, chain[..m])
  {
    var front := chain[..m];
    forall i | 0 <= i < m
      ensures front[i] in front && Completes(steps[i], front[i])
    {
      assert front[i] == chain[i];
    }
  }

  lemma {:induction false} FewerAreReachable(steps: seq<Step>, l: int, m: int)
    requires Reachable(steps, l) && m <= l
    ensures Reachable(steps, m)
  {
    if 0 < m {
      var chain: seq<Event> :| |chain| == l && Chain(steps, chain, None, chain);
      ChainPrefix(steps, chain, m);
    }
  }

  lemma {:induction false} CompletedIsReachable(events: seq<Event>, unordered: seq<Step>)
    requires events != []
    ensures JourneyOf(events, unordered).Some?
    ensures Reachable(Sorted(Order(), unordered), |JourneyOf(events, unordered).value.completedSteps|)
  {
    var chain := JourneyIsAchieved(events, unordered);
    assert Chain(Sorted(Order(), unordered), chain, None, chain);
  }

  lemma {:induction false} AtLeastUnreachable(unordered: seq<Step>, users: seq<seq<Event>>, journeys: seq<Journey>,
                                              l: int)
    requires Created(unordered, users, journeys) && !Reachable(Sorted(Order(), unordered), l)
    ensures AtLeast(journeys, l) == 0
  {
    var steps := Sorted(Order(), unordered);
    forall i | 0 <= i < |journeys|
      ensures |journeys[i].completedSteps| < l
    {
      CompletedIsReachable(users[i], unordered);
      if l <= |journeys[i].completedSteps| {
        FewerAreReachable(steps, |journeys[i].completedSteps|, l);
      }
    }
    CountOrder(journeys, (j: Journey) => |j.completedSteps| >= l, (j: Journey) => false);
    CountNone(journeys);
  }

  /** What there is to know of created journeys: they walk the funnel, and no further than anyone can get. */
  ghost predicate Possible(steps: seq<Step>, journeys: seq<Journey>) {
    && AllWalkFunnel(steps, journeys)
    && forall l: int :: !Reachable(steps, l) ==> AtLeast(journeys, l) == 0
  }

  lemma {:induction false} CreatedIsPossible(unordered: seq<Step>, users: seq<seq<Event>>, journeys: seq<Journey>)
    requires Created(unordered, users, journeys)
    ensures Possible(Sorted(Order(), unordered), journeys)
  {
    CreatedWalk(unordered, users, journeys);
    forall l: int | !Reachable(Sorted(Order(), unordered), l)
      ensures AtLeast(journeys, l) == 0
    {
      AtLeastUnreachable(unordered, users, journeys, l);
    }
  }

  lemma {:induction false} CountNone(journeys: seq<Journey>)
    ensures Count(journeys, (j: Journey) => false) == 0
  {
    if journeys != [] {
      CountNone(journeys[..|journeys| - 1]);
    }
  }

  /** The times of a chain are as many as its events. */
  lemma {:induction false} TimesOfChain(chain: seq<Event>)
    requires forall i, k | 0 <= i < k < |chain| :: chain[i].timestamp < chain[k].timestamp
    ensures |set e | e in chain :: e.timestamp| == |chain|
  {
    if chain != [] {
      var n := |chain| - 1;
      TimesOfChain(chain[..n]);
      assert chain == chain[..n] + [chain[n]];
      assert (set e | e in chain :: e.timestamp) == (set e | e in chain[..n] :: e.timestamp) + {chain[n].timestamp};
    }
  }

  lemma {:induction false} FewTimes(events: seq<Event>)
    ensures |set e | e in events :: e.timestamp| <= |events|
  {
    if events != [] {
      var n := |events| - 1;
      FewTimes(events[..n]);
      assert events == events[..n] + [events[n]];
      assert (set e | e in events :: e.timestamp) == (set e | e in events[..n] :: e.timestamp) + {events[n].timestamp};
    }
  }

  lemma {:induction false} FewerInSet(a: set<int>, b: set<int>)
    requires a <= b
    ensures |a| <= |b|
  {
    assert b == a + (b - a) && a * (b - a) == {};
  }

  /** A user completes no more steps than there are events. */
  lemma {:induction false} NoMoreThanEvents(events: seq<Event>, unordered: seq<Step>)
    requires events != []
    ensures JourneyOf(events, unordered).Some? && |JourneyOf(events, unordered).value.completedSteps| <= |events|
  {
    var chain := JourneyIsAchieved(events, unordered);
    TimesOfChain(chain);
    FewTimes(events);
    FewerInSet(set e | e in chain :: e.timestamp, set e | e in events :: e.timestamp);
  }

  /** An event of another type than the first step's completes nothing. */
  lemma {:induction false} IdleUser(unordered: seq<Step>) returns (events: seq<Event>, journey: Journey)
    requires unordered != []
    ensures events != [] && JourneyOf(events, unordered) == Some(journey) && |journey.completedSteps| == 0
  {
    var steps := Sorted(Order(), unordered);
    SortedKeepsAll(Order(), unordered);
    var event := Event(steps[0].eventType + "x", 0, map[]);
    assert |event.eventType| != |steps[0].eventType|;
    events := [event];
    assert events[..0] == [] && events[1..] == [];
    assert Sorted(Timestamp(), events) == events;
    assert FirstMatch(steps[0], events, None) == FirstMatch(steps[0], [], None);
    journey := JourneyOf(events, unordered).value;
  }

  /** Whatever number of steps is reachable, some user's journey completes exactly that many. */
  lemma {:induction false} UserCompleting(unordered: seq<Step>, d: nat) returns (events: seq<Event>, journey: Journey)
    requires unordered != [] && Reachable(Sorted(Order(), unordered), d)
    ensures events != [] && JourneyOf(events, unordered) == Some(journey) && |journey.completedSteps| == d
  {
    if d == 0 {
      events, journey := IdleUser(unordered);
    } else {
      var steps := Sorted(Order(), unordered);
      events :| |events| == d && Chain(steps, events, None, events);
      JourneyIsOptimal(events, unordered, events);
      NoMoreThanEvents(events, unordered);
      journey := JourneyOf(events, unordered).value;
    }
  }

  lemma {:induction false} CreatedPair(unordered: seq<Step>, u: seq<Event>, v: seq<Event>, x: Journey, y: Journey)
    requires u != [] && JourneyOf(u, unordered) == Some(x)
    requires v != [] && JourneyOf(v, unordered) == Some(y)
    ensures Created(unordered, [u, v], [x, y])
  {
    var users, journeys := [u, v], [x, y];
    forall i | 0 <= i < |users|
      ensures users[i] != [] && JourneyOf(users[i], unordered) == Some(journeys[i])
    {
      assert users[i] == if i == 0 then u else v;
    }
  }

  /** Two users of whom one completes a steps and the other b. */
  lemma {:induction false} TwoUsers(unordered: seq<Step>, a: nat, b: nat)
    returns (users: seq<seq<Event>>, journeys: seq<Journey>)
    requires unordered != []
    requires Reachable(Sorted(Order(), unordered), a) && Reachable(Sorted(Order(), unordered), b)
    ensures Created(unordered, users, journeys) && Complete(Sorted(Order(), unordered), journeys, a, b)
  {
    var u, x := UserCompleting(unordered, a);
    var v, y := UserCompleting(unordered, b);
    users, journeys := [u, v], [x, y];
    CreatedPair(unordered, u, v, x, y);
    CreatedWalk(unordered, users, journeys);
  }

  /** Two journeys through the first a and the first b steps. */
  ghost predicate Complete(steps: seq<Step>, journeys: seq<Journey>, a: nat, b: nat) {
    && |journeys| == 2 && AllWalkFunnel(steps, journeys)
    && |journeys[0].completedSteps| == a && |journeys[1].completedSteps| == b
  }

  lemma {:induction false} CountTwo(x: Journey, y: Journey, p: Journey -> bool)
    ensures Count([x, y], p) == (if p(x) then 1 else 0) + if p(y) then 1 else 0
  {
    assert [x, y][..1] == [x];
    assert [x][..0] == [];
  }

  function One(yes: bool): nat {
    if yes then 1 else 0
  }

  lemma {:induction false} AtLeastTwo(steps: seq<Step>, journeys: seq<Journey>, a: nat, b: nat, n: int)
    requires Complete(steps, journeys, a, b)
    ensures AtLeast(journeys, n) == One(n <= a) + One(n <= b)
  {
    assert journeys == [journeys[0], journeys[1]];
    CountTwo(journeys[0], journeys[1], (j: Journey) => |j.completedSteps| >= n);
  }

  lemma {:induction false} FromPreviousTwo(steps: seq<Step>, journeys: seq<Journey>, a: nat, b: nat, order: int)
    requires Complete(steps, journeys, a, b)
    ensures FromPrevious(journeys, order) == One(order - 1 <= a) + One(order - 1 <= b)
  {
    AtLeastTwo(steps, journeys, a, b, order - 1);
  }

  lemma {:induction false} ReachingTwo(steps: seq<Step>, journeys: seq<Journey>, a: nat, b: nat, k: nat)
    requires Complete(steps, journeys, a, b) && k < |steps|
    ensures Reaching(journeys, steps[k].id) == One(First(steps, k) < a) + One(First(steps, k) < b)
  {
    ReachingIsAtLeast(steps, journeys, k);
    AtLeastTwo(steps, journeys, a, b, First(steps, k) + 1);
  }

  /** The rate of place k when one user completes a steps and another b. */
  function TwoRate(steps: seq<Step>, a: nat, b: nat, k: nat): real
    requires k < |steps|
  {
    var (f, order) := (First(steps, k), steps[k].order);
    Ratio(One(f < a) + One(f < b), One(order - 1 <= a) + One(order - 1 <= b))
  }

  lemma {:induction false} RateOfTwo(steps: seq<Step>, journeys: seq<Journey>, a: nat, b: nat, k: nat)
    requires Complete(steps, journeys, a, b) && k < |steps|
    ensures StepResults(journeys, steps)[k].conversionRate == TwoRate(steps, a, b, k)
  {
    ReachingTwo(steps, journeys, a, b, k);
    FromPreviousTwo(steps, journeys, a, b, steps[k].order);
  }

  /* ---------------- rates out of range ---------------- */

  /**
   * Place k's order asks for no more completed steps than getting to the step takes, or for more than
   * anyone can complete.
   */
  ghost predicate SoundOrder(steps: seq<Step>, k: nat)
    requires k < |steps|
  {
    steps[k].order <= First(steps, k) + 2 || !Reachable(steps, steps[k].order - 1)
  }

  lemma {:induction false} RateInRange(steps: seq<Step>, journeys: seq<Journey>, k: nat)
    requires Possible(steps, journeys) && k < |steps| && SoundOrder(steps, k)
    ensures 0.0 <= StepResults(journeys, steps)[k].conversionRate <= 1.0
  {
    assert Reachable(steps, 0);
    CountsInOrder(steps, journeys, k);
  }

  lemma {:induction false} CountsInOrder(steps: seq<Step>, journeys: seq<Journey>, k: nat)
    requires AllWalkFunnel(steps, journeys) && k < |steps|
    requires steps[k].order <= First(steps, k) + 2
        || (steps[k].order != 1 && AtLeast(journeys, steps[k].order - 1) == 0)
    ensures 0.0 <= StepResults(journeys, steps)[k].conversionRate <= 1.0
  {
    ReachingIsAtLeast(steps, journeys, k);
    if steps[k].order <= First(steps, k) + 2 {
      AtLeastFalls(journeys, steps[k].order - 1, First(steps, k) + 1);
      RatioAtMostOne(Reaching(journeys, steps[k].id), FromPrevious(journeys, steps[k].order));
    }
  }

  /** Where the order is not sound, two users are enough to push the rate above one. */
  lemma {:induction false} RateOutOfRange(unordered: seq<Step>, steps: seq<Step>, k: nat)
    returns (users: seq<seq<Event>>, journeys: seq<Journey>)
    requires steps == Sorted(Order(), unordered) && k < |steps| && !SoundOrder(steps, k)
    ensures Created(unordered, users, journeys)
    ensures StepResults(journeys, steps)[k].conversionRate == 2.0
  {
    var (l, f) := (steps[k].order - 1, First(steps, k));
    SortedKeepsAll(Order(), unordered);
    FewerAreReachable(steps, l, f + 1);
    users, journeys := TwoUsers(unordered, l, f + 1);
    RateIsTwo(steps, journeys, l, k);
  }

  lemma {:induction false} RateIsTwo(steps: seq<Step>, journeys: seq<Journey>, l: nat, k: nat)
    requires k < |steps| && l == steps[k].order - 1 && First(steps, k) + 1 < l
    requires Complete(steps, journeys, l, First(steps, k) + 1)
    ensures StepResults(journeys, steps)[k].conversionRate == 2.0
  {
    RateOfTwo(steps, journeys, l, First(steps, k) + 1, k);
  }

  /** Exactly when a step's rate lies in [0, 1] for every set of created journeys. */
  lemma {:induction false} RateInRangeExactly(unordered: seq<Step>, k: nat)
    requires k < |Sorted(Order(), unordered)|
    ensures (forall users, journeys | Created(unordered, users, journeys) ::
               0.0 <= StepResults(journeys, Sorted(Order(), unordered))[k].conversionRate <= 1.0)
       <==> SoundOrder(Sorted(Order(), unordered), k)
  {
    var steps := Sorted(Order(), unordered);
    if SoundOrder(steps, k) {
      forall users, journeys | Created(unordered, users, journeys)
        ensures 0.0 <= StepResults(journeys, steps)[k].conversionRate <= 1.0
      {
        CreatedIsPossible(unordered, users, journeys);
        RateInRange(steps, journeys, k);
      }
    } else {
      var users, journeys := RateOutOfRange(unordered, steps, k);
    }
  }

  /* ---------------- the product of the step rates ---------------- */

  function Product(results: seq<StepResult>): real {
    if results == [] then 1.0 else Product(results[..|results| - 1]) * results[|results| - 1].conversionRate
  }

  /** Step orders as the engine's arithmetic expects them: 1..n, the first possibly smaller. */
  predicate Contiguous(steps: seq<Step>) {
    forall k | 0 <= k < |steps| :: if k == 0 then steps[k].order <= 1 else steps[k].order == k + 1
  }

  /** Strictly increasing, as sorting unique orders makes them. */
  ghost predicate Increasing(steps: seq<Step>) {
    forall i, j | 0 <= i < j < |steps| :: steps[i].order < steps[j].order
  }

  /** The product of the step rates is the completion rate. */
  predicate ProductLaw(steps: seq<Step>, journeys: seq<Journey>) {
    Product(StepResults(journeys, steps)) == OverallMetrics(journeys, |steps|).completionRate
  }

  lemma DividesBack(a: real, b: real, t: real)
    requires 0.0 < b && 0.0 < t
    ensures b / t * (a / b) == a / t
  {
    var x, y := b / t, a / b;
    assert x * t == b && y * b == a;
    assert x * y * t == a;
  }

  lemma Telescopes(a: nat, b: nat, t: nat, before: real, rate: real, after: real)
    requires a <= b <= t
    requires before == Ratio(b, t) && rate == Ratio(a, b) && after == before * rate
    ensures after == Ratio(a, t)
  {
    if 0 < b {
      DividesBack(a as real, b as real, t as real);
    }
  }

  lemma {:induction false} FromPreviousContiguous(steps: seq<Step>, journeys: seq<Journey>, k: nat)
    requires Contiguous(steps) && k < |steps|
    ensures FromPrevious(journeys, steps[k].order) == AtLeast(journeys, k)
  {
    if k == 0 {
      AtLeastNone(journeys, 0);
      AtLeastNone(journeys, steps[0].order - 1);
    }
  }

  lemma {:induction false} RateContiguous(steps: seq<Step>, journeys: seq<Journey>, k: nat)
    requires DistinctIds(steps) && AllWalkFunnel(steps, journeys) && Contiguous(steps) && k < |steps|
    ensures StepResults(journeys, steps)[k].conversionRate == Ratio(AtLeast(journeys, k + 1), AtLeast(journeys, k))
  {
    ReachingIsAtLeast(steps, journeys, k);
    FirstIsSelf(steps, k);
    FromPreviousContiguous(steps, journeys, k);
  }

  lemma {:induction false} ProductOneMore(results: seq<StepResult>, k: nat)
    requires k < |results|
    ensures Product(results[..k + 1]) == Product(results[..k]) * results[k].conversionRate
  {
    assert results[..k + 1][..k] == results[..k];
  }

  /** Place k of the results is the share of counts[k] that is left in counts[k + 1]. */
  predicate Share(results: seq<StepResult>, counts: seq<nat>, k: nat)
    requires k < |results| && |counts| == |results| + 1
  {
    counts[k + 1] <= counts[k] <= counts[0] && results[k].conversionRate == Ratio(counts[k + 1], counts[k])
  }

  lemma {:induction false} SharesMultiply(results: seq<StepResult>, counts: seq<nat>, k: nat)
    requires |counts| == |results| + 1 && k < |results|
    requires forall i | 0 <= i < |results| :: Share(results, counts, i)
    ensures Product(results[..k + 1]) == Ratio(counts[k + 1], counts[0])
  {
    ProductOneMore(results, k);
    assert Share(results, counts, k);
    if k == 0 {
      assert Product(results[..0]) == 1.0;
    } else {
      SharesMultiply(results, counts, k - 1);
      Telescopes(counts[k + 1], counts[k], counts[0],
                 Product(results[..k]), results[k].conversionRate, Product(results[..k + 1]));
    }
  }

  /** How many journeys complete at least 0, 1, ..., n steps. */
  function Counts(journeys: seq<Journey>, n: nat): (counts: seq<nat>)
    ensures |counts| == n + 1
    ensures forall i | 0 <= i <= n :: counts[i] == AtLeast(journeys, i)
  {
    if n == 0 then [AtLeast(journeys, 0)] else Counts(journeys, n - 1) + [AtLeast(journeys, n)]
  }

  lemma {:induction false} ContiguousObeysProductLaw(steps: seq<Step>, journeys: seq<Journey>)
    requires steps != [] && DistinctIds(steps) && AllWalkFunnel(steps, journeys) && Contiguous(steps)
    ensures ProductLaw(steps, journeys)
  {
    var results, counts := StepResults(journeys, steps), Counts(journeys, |steps|);
    forall k | 0 <= k < |results|
      ensures Share(results, counts, k)
    {
      RateContiguous(steps, journeys, k);
      AtLeastFalls(journeys, k, k + 1);
      AtLeastFalls(journeys, 0, k);
    }
    SharesMultiply(results, counts, |results| - 1);
    assert results[..|results|] == results;
    FinishedIsAtLeast(steps, journeys);
    AtLeastNone(journeys, 0);
  }

  lemma {:induction false} LargeProduct(results: seq<StepResult>)
    requires forall i | 0 <= i < |results| :: results[i].conversionRate == 0.0 || 1.0 <= results[i].conversionRate
    ensures Product(results) == 0.0 || 1.0 <= Product(results)
  {
    if results != [] {
      LargeProduct(results[..|results| - 1]);
    }
  }

  predicate InUnit(results: seq<StepResult>) {
    forall i | 0 <= i < |results| :: 0.0 <= results[i].conversionRate <= 1.0
  }

  lemma BoundedTimes(x: real, y: real, u: real, v: real) returns (z: real)
    requires 0.0 <= x <= u && 0.0 <= y <= v
    ensures z == x * y && 0.0 <= z <= u * v
  {
    z := x * y;
    assert 0.0 <= x * (v - y);
    assert 0.0 <= (u - x) * v;
  }

  /** What the place n, and all places below n, contribute at most when places i and j give one half. */
  function CapAt(n: nat, i: nat, j: nat): real {
    if n == i || n == j then 0.5 else 1.0
  }

  function CapBelow(n: nat, i: nat, j: nat): real {
    if j < n then 0.25 else if i < n then 0.5 else 1.0
  }

  lemma CapsMultiply(n: nat, i: nat, j: nat)
    requires i < j
    ensures CapBelow(n, i, j) * CapAt(n, i, j) == CapBelow(n + 1, i, j)
  {
    if n == j {
      assert CapBelow(n, i, j) == 0.5;
    }
  }

  lemma CappedTimes(x: real, y: real, n: nat, i: nat, j: nat) returns (z: real)
    requires i < j && 0.0 <= x <= CapBelow(n, i, j) && 0.0 <= y <= CapAt(n, i, j)
    ensures z == x * y && 0.0 <= z <= CapBelow(n + 1, i, j)
  {
    CapsMultiply(n, i, j);
    z := BoundedTimes(x, y, CapBelow(n, i, j), CapAt(n, i, j));
  }

  /** Rates in [0, 1] whose places i and j, in that order, are at most one half. */
  lemma {:induction false} SmallProduct(results: seq<StepResult>, i: nat, j: nat)
    requires InUnit(results) && i < j
    requires i < |results| ==> results[i].conversionRate <= 0.5
    requires j < |results| ==> results[j].conversionRate <= 0.5
    ensures 0.0 <= Product(results) <= CapBelow(|results|, i, j)
  {
    if results != [] {
      var n := |results| - 1;
      SmallProduct(results[..n], i, j);
      var z := CappedTimes(Product(results[..n]), results[n].conversionRate, n, i, j);
    }
  }

  lemma {:induction false} CompletionIsHalf(steps: seq<Step>, journeys: seq<Journey>, d: nat)
    requires d < |steps| && Complete(steps, journeys, |steps|, d)
    ensures OverallMetrics(journeys, |steps|).completionRate == 0.5
  {
    FinishedIsAtLeast(steps, journeys);
    AtLeastTwo(steps, journeys, |steps|, d, |steps|);
  }

  lemma {:induction false} HighRate(steps: seq<Step>, journeys: seq<Journey>, k: nat, i: nat)
    requires DistinctIds(steps) && Increasing(steps) && k < |steps| && k + 1 < steps[k].order
    requires Complete(steps, journeys, |steps|, k) && i < |steps|
    ensures var rate := Ratio(Reaching(journeys, steps[i].id), FromPrevious(journeys, steps[i].order));
            rate == 0.0 || 1.0 <= rate
  {
    ReachingTwo(steps, journeys, |steps|, k, i);
    FromPreviousTwo(steps, journeys, |steps|, k, steps[i].order);
    FirstIsSelf(steps, i);
    if k < i {
      assert steps[k].order < steps[i].order;
    }
  }

  lemma {:induction false} OrderTooHigh(steps: seq<Step>, journeys: seq<Journey>, k: nat)
    requires DistinctIds(steps) && Increasing(steps) && k < |steps| && k + 1 < steps[k].order
    requires Complete(steps, journeys, |steps|, k)
    ensures !ProductLaw(steps, journeys)
  {
    var results := StepResults(journeys, steps);
    forall i | 0 <= i < |results|
      ensures results[i].conversionRate == 0.0 || 1.0 <= results[i].conversionRate
    {
      HighRate(steps, journeys, k, i);
      assert results[i] == ResultOf(journeys, steps[i]);
    }
    LargeProduct(results);
    CompletionIsHalf(steps, journeys, k);
  }

  lemma RatioOfTwo(part: nat, whole: nat)
    requires 1 <= part <= 2 && whole <= 2
    requires part == 2 ==> whole == 2
    ensures 0.0 <= Ratio(part, whole) <= 1.0
    ensures part == 1 && whole == 2 ==> Ratio(part, whole) == 0.5
  {
  }

  lemma {:induction false} LowRate(steps: seq<Step>, journeys: seq<Journey>, k: nat, i: nat)
    requires DistinctIds(steps) && Increasing(steps) && 0 < k < |steps| && steps[k].order < k + 1
    requires Complete(steps, journeys, |steps|, k - 1) && i < |steps|
    ensures var rate := Ratio(Reaching(journeys, steps[i].id), FromPrevious(journeys, steps[i].order));
            0.0 <= rate <= 1.0 && (i == k - 1 || i == k ==> rate <= 0.5)
  {
    ReachingTwo(steps, journeys, |steps|, k - 1, i);
    FromPreviousTwo(steps, journeys, |steps|, k - 1, steps[i].order);
    FirstIsSelf(steps, i);
    if i < k {
      assert steps[i].order < steps[k].order;
    }
    RatioOfTwo(Reaching(journeys, steps[i].id), FromPrevious(journeys, steps[i].order));
  }

  lemma {:induction false} LowRates(steps: seq<Step>, journeys: seq<Journey>, k: nat)
    requires DistinctIds(steps) && Increasing(steps) && 0 < k < |steps| && steps[k].order < k + 1
    requires Complete(steps, journeys, |steps|, k - 1)
    ensures var results := StepResults(journeys, steps);
            InUnit(results) && results[k - 1].conversionRate <= 0.5 && results[k].conversionRate <= 0.5
  {
    var results := StepResults(journeys, steps);
    forall i | 0 <= i < |results|
      ensures 0.0 <= results[i].conversionRate <= 1.0
    {
      LowRate(steps, journeys, k, i);
      assert results[i] == ResultOf(journeys, steps[i]);
    }
    LowRate(steps, journeys, k, k - 1);
    LowRate(steps, journeys, k, k);
  }

  lemma {:induction false} OrderTooLow(steps: seq<Step>, journeys: seq<Journey>, k: nat)
    requires DistinctIds(steps) && Increasing(steps) && 0 < k < |steps| && steps[k].order < k + 1
    requires Complete(steps, journeys, |steps|, k - 1)
    ensures !ProductLaw(steps, journeys)
  {
    LowRates(steps, journeys, k);
    SmallProduct(StepResults(journeys, steps), k - 1, k);
    CompletionIsHalf(steps, journeys, k - 1);
  }

  /* ---------------- a repeated id breaks the law ---------------- */

  /** Place p's rate of growth when the second user completes one step more, the one at place i. */
  function Growth(steps: seq<Step>, i: nat, j: nat, p: nat): real
    requires p < |steps|
  {
    (if p == i || p == j then 2.0 else 1.0) * if steps[p].order == i + 2 then 0.5 else 1.0
  }

  /** What the growth of the places below p multiplies to. */
  ghost function Grown(steps: seq<Step>, i: nat, j: nat, p: nat): real
    requires p <= |steps|
  {
    (if i < p then 2.0 else 1.0) * (if j < p then 2.0 else 1.0)
    * if exists q | 0 <= q < p :: steps[q].order == i + 2 then 0.5 else 1.0
  }

  lemma {:induction false} GrownOneMore(steps: seq<Step>, i: nat, j: nat, p: nat)
    requires Increasing(steps) && i < j && p < |steps|
    ensures Grown(steps, i, j, p + 1) == Grown(steps, i, j, p) * Growth(steps, i, j, p)
    ensures 0.5 <= Grown(steps, i, j, p)
  {
    if steps[p].order == i + 2 {
      assert forall q | 0 <= q < p :: steps[q].order < steps[p].order;
      assert exists q | 0 <= q < p + 1 :: steps[q].order == i + 2;
    }
  }

  /** The second user completes i and i + 1 steps. */
  lemma {:induction false} RateGrows(steps: seq<Step>, i: nat, j: nat, p: nat)
    requires i < j < |steps| && First(steps, j) == i && p < |steps|
    ensures 0.0 <= TwoRate(steps, |steps|, i, p)
    ensures TwoRate(steps, |steps|, i, p) * Growth(steps, i, j, p) <= TwoRate(steps, |steps|, i + 1, p)
  {
    if p == i || p == j {
      PlaceOfFirst(steps, i, j, p);
    }
    RatiosGrow(steps, i, j, p, TwoRate(steps, |steps|, i, p), TwoRate(steps, |steps|, i + 1, p));
  }

  lemma {:induction false} PlaceOfFirst(steps: seq<Step>, i: nat, j: nat, p: nat)
    requires i < j < |steps| && First(steps, j) == i && p < |steps| && (p == i || p == j)
    ensures First(steps, p) == i
  {
  }

  lemma {:induction false} RatiosGrow(steps: seq<Step>, i: nat, j: nat, p: nat, r: real, r': real)
    requires i < |steps| && p < |steps| && (p == i || p == j ==> First(steps, p) == i)
    requires var (n, f, order) := (|steps|, First(steps, p), steps[p].order);
             && r == Ratio(One(f < n) + One(f < i), One(order - 1 <= n) + One(order - 1 <= i))
             && r' == Ratio(One(f < n) + One(f < i + 1), One(order - 1 <= n) + One(order - 1 <= i + 1))
    ensures 0.0 <= r && r * Growth(steps, i, j, p) <= r'
  {
    var (n, f, order) := (|steps|, First(steps, p), steps[p].order);
    RatiosOfTwo(f < i, f == i, order - 1 <= n, order - 1 <= i, order == i + 2);
    var twice, half := f == i, order == i + 2;
    ProductMonotone((if p == i || p == j then 2.0 else 1.0) * (if half then 0.5 else 1.0),
                    (if twice then 2.0 else 1.0) * (if half then 0.5 else 1.0), r);
  }

  lemma RatiosOfTwo(below: bool, here: bool, fits: bool, small: bool, next: bool)
    requires !(below && here) && !(small && next) && (small || next ==> fits)
    ensures var (r, r') := (Ratio(1 + One(below), One(fits) + One(small)),
                            Ratio(1 + One(below || here), One(fits) + One(small || next)));
            0.0 <= r && r * ((if here then 2.0 else 1.0) * if next then 0.5 else 1.0) <= r'
  {
  }

  lemma TimesGrown(x: real, x': real, g: real, r: real, r': real, c: real) returns (p: real, p': real, h: real)
    requires 0.0 <= x && 0.5 <= g && x * g <= x' && 0.0 <= r && 0.0 < c && r * c <= r'
    ensures p == x * r && p' == x' * r' && h == g * c && 0.0 <= p && p * h <= p'
  {
    p, p', h := x * r, x' * r', g * c;
    var z := NotNegative(x, r);
    var u := NotNegative(x, g);
    var v := NotNegative(r, c);
    BothAtMost(u, v, x', r');
    assert u * v == x * r * (g * c);
  }

  lemma {:induction false} GrowthIsPositive(steps: seq<Step>, i: nat, j: nat, p: nat)
    requires p < |steps|
    ensures 0.0 < Growth(steps, i, j, p)
  {
  }

  /** A rate at place k that grows at least as it should. */
  ghost predicate GrowsAt(steps: seq<Step>, i: nat, j: nat, k: nat, r: real, r': real)
    requires k < |steps|
  {
    0.0 <= r && r * Growth(steps, i, j, k) <= r'
  }

  lemma {:induction false} PlaceGrows(steps: seq<Step>, i: nat, j: nat, k: nat, p: real, p': real, q: real, q': real,
                                      r: real, r': real)
    requires Increasing(steps) && i < j < |steps| && k < |steps| && GrowsAt(steps, i, j, k, r, r')
    requires p' == p * r && q' == q * r'
    requires 0.0 <= p && p * Grown(steps, i, j, k) <= q
    ensures 0.0 <= p' && p' * Grown(steps, i, j, k + 1) <= q'
  {
    GrownOneMore(steps, i, j, k);
    GrowthIsPositive(steps, i, j, k);
    var x, y, g := TimesGrown(p, q, Grown(steps, i, j, k), r, r', Growth(steps, i, j, k));
  }

  /** Partial products: place k + 1 multiplies place k by rate k. */
  ghost predicate Multiplies(px: seq<real>, x: seq<StepResult>, k: nat)
    requires k < |x| && |px| == |x| + 1
  {
    px[k + 1] == px[k] * x[k].conversionRate
  }

  lemma {:induction false} Partials(x: seq<StepResult>) returns (px: seq<real>)
    ensures |px| == |x| + 1 && px[0] == 1.0 && px[|x|] == Product(x)
    ensures forall k | 0 <= k < |x| :: Multiplies(px, x, k)
  {
    if x == [] {
      px := [1.0];
    } else {
      var n := |x| - 1;
      var front := Partials(x[..n]);
      px := front + [Product(x)];
      forall k | 0 <= k < |x|
        ensures Multiplies(px, x, k)
      {
        if k < n {
          assert Multiplies(front, x[..n], k);
        }
      }
    }
  }

  /** The second product is ahead of the first by all the growth so far. */
  lemma {:induction false} ProductGrows(steps: seq<Step>, x: seq<StepResult>, y: seq<StepResult>,
                                        px: seq<real>, py: seq<real>, i: nat, j: nat, p: nat)
    requires Increasing(steps) && i < j < |steps| && p <= |steps| == |x| == |y| && |px| == |py| == |x| + 1
    requires px[0] == py[0] == 1.0
    requires forall k | 0 <= k < |steps| :: Multiplies(px, x, k) && Multiplies(py, y, k)
    requires forall k | 0 <= k < |steps| :: GrowsAt(steps, i, j, k, x[k].conversionRate, y[k].conversionRate)
    ensures 0.0 <= px[p] && px[p] * Grown(steps, i, j, p) <= py[p]
  {
    if 0 < p {
      var k := p - 1;
      ProductGrows(steps, x, y, px, py, i, j, k);
      assert Multiplies(px, x, k) && Multiplies(py, y, k);
      PlaceGrows(steps, i, j, k, px[k], px[p], py[k], py[p], x[k].conversionRate, y[k].conversionRate);
    }
  }

  lemma {:induction false} ResultGrows(steps: seq<Step>, x: seq<Journey>, y: seq<Journey>, i: nat, j: nat, k: nat)
    requires i < j < |steps| && First(steps, j) == i && k < |steps|
    requires Complete(steps, x, |steps|, i) && Complete(steps, y, |steps|, i + 1)
    ensures GrowsAt(steps, i, j, k, StepResults(x, steps)[k].conversionRate, StepResults(y, steps)[k].conversionRate)
  {
    RateOfTwo(steps, x, |steps|, i, k);
    RateOfTwo(steps, y, |steps|, i + 1, k);
    RateGrows(steps, i, j, k);
  }

  lemma {:induction false} ResultsGrow(steps: seq<Step>, x: seq<StepResult>, y: seq<StepResult>, i: nat, j: nat)
    requires Increasing(steps) && i < j < |steps| && |steps| == |x| == |y|
    requires forall k | 0 <= k < |steps| :: GrowsAt(steps, i, j, k, x[k].conversionRate, y[k].conversionRate)
    ensures 0.0 <= Product(x) && 2.0 * Product(x) <= Product(y)
  {
    var px := Partials(x);
    var py := Partials(y);
    ProductGrows(steps, x, y, px, py, i, j, |steps|);
    ProductMonotone(2.0, Grown(steps, i, j, |steps|), Product(x));
  }

  lemma {:induction false} RepeatedId(steps: seq<Step>, x: seq<Journey>, y: seq<Journey>, i: nat, j: nat)
    requires Increasing(steps) && i < j < |steps| && First(steps, j) == i
    requires Complete(steps, x, |steps|, i) && Complete(steps, y, |steps|, i + 1)
    ensures !ProductLaw(steps, x) || !ProductLaw(steps, y)
  {
    forall k | 0 <= k < |steps|
      ensures GrowsAt(steps, i, j, k, StepResults(x, steps)[k].conversionRate, StepResults(y, steps)[k].conversionRate)
    {
      ResultGrows(steps, x, y, i, j, k);
    }
    ResultsGrow(steps, StepResults(x, steps), StepResults(y, steps), i, j);
    CompletionIsHalf(steps, x, i);
    CompletionIsHalf(steps, y, i + 1);
  }

  /* ---------------- exactly when the law holds ---------------- */

  /** A step whose rate is zero for any users: no one gets to it, or to the steps its order asks for. */
  ghost predicate Dead(steps: seq<Step>, k: nat)
    requires k < |steps|
  {
    !Reachable(steps, First(steps, k) + 1) || !Reachable(steps, steps[k].order - 1)
  }

  lemma {:induction false} ZeroRateZeroProduct(results: seq<StepResult>, k: nat)
    requires k < |results| && results[k].conversionRate == 0.0
    ensures Product(results) == 0.0
  {
    var n := |results| - 1;
    if k < n {
      ZeroRateZeroProduct(results[..n], k);
    }
  }

  lemma {:induction false} EmptyCountIsZeroRate(steps: seq<Step>, journeys: seq<Journey>, k: nat)
    requires AllWalkFunnel(steps, journeys) && k < |steps|
    requires || AtLeast(journeys, First(steps, k) + 1) == 0
             || (steps[k].order != 1 && AtLeast(journeys, steps[k].order - 1) == 0)
    ensures StepResults(journeys, steps)[k].conversionRate == 0.0
  {
    ReachingIsAtLeast(steps, journeys, k);
  }

  lemma {:induction false} DeadRate(steps: seq<Step>, journeys: seq<Journey>, k: nat)
    requires Possible(steps, journeys) && k < |steps| && Dead(steps, k)
    ensures StepResults(journeys, steps)[k].conversionRate == 0.0
  {
    assert Reachable(steps, 0);
    EmptyCountIsZeroRate(steps, journeys, k);
  }

  lemma {:induction false} ZerosObeyLaw(steps: seq<Step>, journeys: seq<Journey>, k: nat)
    requires AllWalkFunnel(steps, journeys) && k < |steps|
    requires StepResults(journeys, steps)[k].conversionRate == 0.0 && AtLeast(journeys, |steps|) == 0
    ensures ProductLaw(steps, journeys)
  {
    ZeroRateZeroProduct(StepResults(journeys, steps), k);
    NoFinisher(steps, journeys);
  }

  lemma {:induction false} NoFinisher(steps: seq<Step>, journeys: seq<Journey>)
    requires AllWalkFunnel(steps, journeys) && AtLeast(journeys, |steps|) == 0
    ensures OverallMetrics(journeys, |steps|).completionRate == 0.0
  {
    FinishedIsAtLeast(steps, journeys);
  }

  /** No one can finish the funnel, and some step is dead: both sides of the law are zero. */
  lemma {:induction false} DeadStepObeysLaw(steps: seq<Step>, journeys: seq<Journey>, k: nat)
    requires Possible(steps, journeys) && !Reachable(steps, |steps|) && k < |steps| && Dead(steps, k)
    ensures ProductLaw(steps, journeys)
  {
    DeadRate(steps, journeys, k);
    ZerosObeyLaw(steps, journeys, k);
  }

  /** The most steps anyone can complete. */
  lemma {:induction false} Furthest(steps: seq<Step>, n: nat) returns (l: nat)
    requires !Reachable(steps, n)
    ensures l < n && Reachable(steps, l) && !Reachable(steps, l + 1)
  {
    if Reachable(steps, n - 1) {
      l := n - 1;
    } else {
      l := Furthest(steps, n - 1);
    }
  }

  lemma {:induction false} OnesMultiply(results: seq<StepResult>)
    requires forall k | 0 <= k < |results| :: results[k].conversionRate == 1.0
    ensures Product(results) == 1.0
  {
    if results != [] {
      OnesMultiply(results[..|results| - 1]);
    }
  }

  /** One user who gets to every step, and to what its order asks for, but not to the end. */
  lemma {:induction false} OneUserBreaksLaw(steps: seq<Step>, journey: Journey, l: nat)
    requires WalksFunnel(steps, journey) && |journey.completedSteps| == l < |steps|
    requires forall k | 0 <= k < |steps| :: First(steps, k) < l && steps[k].order - 1 <= l
    ensures !ProductLaw(steps, [journey])
  {
    var results := StepResults([journey], steps);
    forall k | 0 <= k < |results|
      ensures results[k].conversionRate == 1.0
    {
      RateOfOne(steps, journey, l, k);
    }
    OnesMultiply(results);
    NobodyFinishes(steps, journey, l);
  }

  lemma {:induction false} NobodyFinishes(steps: seq<Step>, journey: Journey, l: nat)
    requires |journey.completedSteps| == l < |steps|
    ensures OverallMetrics([journey], |steps|).completionRate == 0.0
  {
    assert [journey][..0] == [];
  }

  lemma {:induction false} RateOfOne(steps: seq<Step>, journey: Journey, l: nat, k: nat)
    requires WalksFunnel(steps, journey) && |journey.completedSteps| == l
    requires k < |steps| && First(steps, k) < l && steps[k].order - 1 <= l
    ensures StepResults([journey], steps)[k].conversionRate == 1.0
  {
    AtLeastOne(journey, First(steps, k) + 1);
    AtLeastOne(journey, steps[k].order - 1);
    ReachingIsAtLeast(steps, [journey], k);
  }

  lemma {:induction false} FurthestGetsEverywhere(steps: seq<Step>, l: nat)
    requires !Reachable(steps, l + 1) && forall k | 0 <= k < |steps| :: !Dead(steps, k)
    ensures forall k | 0 <= k < |steps| :: First(steps, k) < l && steps[k].order - 1 <= l
  {
    forall k | 0 <= k < |steps|
      ensures First(steps, k) < l && steps[k].order - 1 <= l
    {
      assert !Dead(steps, k);
      FurthestReaches(steps, l, First(steps, k) + 1);
      FurthestReaches(steps, l, steps[k].order - 1);
    }
  }

  lemma {:induction false} LiveDepth(steps: seq<Step>) returns (l: nat)
    requires !Reachable(steps, |steps|) && forall k | 0 <= k < |steps| :: !Dead(steps, k)
    ensures l < |steps| && Reachable(steps, l)
    ensures forall k | 0 <= k < |steps| :: First(steps, k) < l && steps[k].order - 1 <= l
  {
    l := Furthest(steps, |steps|);
    FurthestGetsEverywhere(steps, l);
  }

  /** No step is dead and no one can finish: the user who gets furthest has rate one everywhere. */
  lemma {:induction false} LiveFunnelBreaksLaw(steps: seq<Step>) returns (l: nat)
    requires !Reachable(steps, |steps|) && forall k | 0 <= k < |steps| :: !Dead(steps, k)
    ensures Reachable(steps, l)
    ensures forall j | WalksFunnel(steps, j) && |j.completedSteps| == l :: !ProductLaw(steps, [j])
  {
    l := LiveDepth(steps);
    forall j | WalksFunnel(steps, j) && |j.completedSteps| == l
      ensures !ProductLaw(steps, [j])
    {
      OneUserBreaksLaw(steps, j, l);
    }
  }

  lemma {:induction false} CreatedOne(unordered: seq<Step>, events: seq<Event>, journey: Journey)
    requires events != [] && JourneyOf(events, unordered) == Some(journey)
    ensures Created(unordered, [events], [journey])
  {
    forall i | 0 <= i < |[events]|
      ensures [events][i] != [] && JourneyOf([events][i], unordered) == Some([journey][i])
    {
      assert [events][i] == events;
    }
  }

  lemma {:induction false} OneUser(unordered: seq<Step>, l: nat) returns (users: seq<seq<Event>>, journey: Journey)
    requires unordered != [] && Reachable(Sorted(Order(), unordered), l)
    ensures Created(unordered, users, [journey])
    ensures WalksFunnel(Sorted(Order(), unordered), journey) && |journey.completedSteps| == l
  {
    var events;
    events, journey := UserCompleting(unordered, l);
    JourneysWalkFunnel(events, unordered);
    users := [events];
    CreatedOne(unordered, events, journey);
  }

  lemma {:induction false} FurthestReaches(steps: seq<Step>, l: nat, m: int)
    requires !Reachable(steps, l + 1) && Reachable(steps, m)
    ensures m <= l
  {
    if l < m {
      FewerAreReachable(steps, m, l + 1);
    }
  }

  lemma {:induction false} AtLeastOne(journey: Journey, m: int)
    ensures AtLeast([journey], m) == One(m <= |journey.completedSteps|)
  {
    assert [journey][..0] == [];
  }

  /** With a finisher and a user who completes d steps the law fails. */
  ghost predicate Breaks(steps: seq<Step>, d: nat) {
    forall journeys | Complete(steps, journeys, |steps|, d) :: !ProductLaw(steps, journeys)
  }

  /** With a repeated id, one of two numbers of completed steps breaks the law. */
  lemma {:induction false} RepeatedIdBreaksLaw(steps: seq<Step>) returns (d: nat)
    requires Increasing(steps) && !DistinctIds(steps)
    ensures d < |steps| && Breaks(steps, d)
  {
    var a, j :| 0 <= a < j < |steps| && steps[a].id == steps[j].id;
    var i := First(steps, j);
    if x :| Complete(steps, x, |steps|, i) && ProductLaw(steps, x) {
      d := i + 1;
      forall y | Complete(steps, y, |steps|, d)
        ensures !ProductLaw(steps, y)
      {
        RepeatedId(steps, x, y, i, j);
      }
    } else {
      d := i;
    }
  }

  lemma {:induction false} BadOrderBreaksLaw(steps: seq<Step>) returns (d: nat)
    requires Increasing(steps) && DistinctIds(steps) && !Contiguous(steps)
    ensures d < |steps| && Breaks(steps, d)
  {
    var k :| 0 <= k < |steps| && !(if k == 0 then steps[k].order <= 1 else steps[k].order == k + 1);
    d := if k + 1 < steps[k].order then k else k - 1;
    forall journeys | Complete(steps, journeys, |steps|, d)
      ensures !ProductLaw(steps, journeys)
    {
      if k + 1 < steps[k].order {
        OrderTooHigh(steps, journeys, k);
      } else {
        OrderTooLow(steps, journeys, k);
      }
    }
  }

  /** A funnel that can be finished but repeats an id or has orders other than 1..n: two users break the law. */
  lemma {:induction false} BadFunnelBreaksLaw(unordered: seq<Step>, steps: seq<Step>)
    returns (users: seq<seq<Event>>, journeys: seq<Journey>)
    requires unordered != [] && steps == Sorted(Order(), unordered) && Increasing(steps)
    requires Reachable(steps, |steps|) && !(DistinctIds(steps) && Contiguous(steps))
    ensures Created(unordered, users, journeys) && !ProductLaw(steps, journeys)
  {
    var d;
    if DistinctIds(steps) {
      d := BadOrderBreaksLaw(steps);
    } else {
      d := RepeatedIdBreaksLaw(steps);
    }
    FewerAreReachable(steps, |steps|, d);
    users, journeys := TwoUsers(unordered, |steps|, d);
  }

  /** Whether the law holds can be read off the funnel. */
  ghost predicate LawfulFunnel(steps: seq<Step>) {
    if Reachable(steps, |steps|) then DistinctIds(steps) && Contiguous(steps)
    else exists k | 0 <= k < |steps| :: Dead(steps, k)
  }

  /**
   * The step rates of a validated funnel multiply to the completion rate for every set of journeys the
   * engine can create exactly when the ids are distinct and the orders are 1..n, the first possibly
   * smaller; or, if no one can finish the funnel at all, when it has a step that is dead for everyone.
   */
  lemma {:induction false} ProductLawExactly(unordered: seq<Step>)
    requires Validated(unordered)
    ensures (forall users, journeys | Created(unordered, users, journeys) ::
               ProductLaw(Sorted(Order(), unordered), journeys))
       <==> LawfulFunnel(Sorted(Order(), unordered))
  {
    var steps := Sorted(Order(), unordered);
    SortedStepsIncrease(unordered);
    if LawfulFunnel(steps) {
      forall users, journeys | Created(unordered, users, journeys)
        ensures ProductLaw(steps, journeys)
      {
        CreatedIsPossible(unordered, users, journeys);
        if Reachable(steps, |steps|) {
          ContiguousObeysProductLaw(steps, journeys);
        } else {
          var k :| 0 <= k < |steps| && Dead(steps, k);
          DeadStepObeysLaw(steps, journeys, k);
        }
      }
    } else if Reachable(steps, |steps|) {
      var users, journeys := BadFunnelBreaksLaw(unordered, steps);
    } else {
      var l := LiveFunnelBreaksLaw(steps);
      var users, journey := OneUser(unordered, l);
    }
  }

  lemma {:induction false} SortedStepsIncrease(unordered: seq<Step>)
    requires Validated(unordered)
    ensures var steps := Sorted(Order(), unordered);
            |steps| == |unordered| && Increasing(steps)
  {
    var steps := Sorted(Order(), unordered);
    SortedKeepsAll(Order(), unordered);
    SortedIsOrdered(Order(), unordered);
    SortedKeepsKeysDistinct(Order(), unordered);
    forall i, j | 0 <= i < j < |steps|
      ensures steps[i].order < steps[j].order
    {
      assert Order()(steps[i]) <= Order()(steps[j]);
    }
  }

  /** No two different steps share an id. */
  ghost predicate IdsIdentify(steps: seq<Step>) {
    forall s, t | s in steps && t in steps && s.id == t.id :: s == t
  }

  /** Any validated funnel with orders 1..n, however its steps are listed, over any journeys created for it. */
  lemma {:induction false} ProductLawForFunnels(unordered: seq<Step>, users: seq<seq<Event>>, journeys: seq<Journey>)
    requires Validated(unordered) && IdsIdentify(unordered)
    requires Contiguous(Sorted(Order(), unordered))
    requires Created(unordered, users, journeys)
    ensures ProductLaw(Sorted(Order(), unordered), journeys)
  {
    var steps := Sorted(Order(), unordered);
    SortedStepsIncrease(unordered);
    forall i, j | 0 <= i < j < |steps|
      ensures steps[i].id != steps[j].id
    {
      SameElements(Order(), unordered, steps[i]);
      SameElements(Order(), unordered, steps[j]);
      assert steps[i].order < steps[j].order;
    }
    CreatedWalk(unordered, users, journeys);
    ContiguousObeysProductLaw(steps, journeys);
  }
}
