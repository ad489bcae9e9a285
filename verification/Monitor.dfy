/**
 * One monitoring pass over an experiment (packages/experiment-agent/src/agent.ts): guardrails first,
 * then the target, and a verdict only when the sequential test has concluded.
 */
module Monitor {
  import opened Wrappers
  import opened Reals
  import opened Sequential

  datatype Movement = Increase | Decrease {
    function Opposite(): Movement {
      if Increase? then Decrease else Increase
    }
  }

  const GUARDRAIL_HARM: map<string, Movement> := map[
    "override_rate" := Increase,
    "cost_per_completed_task" := Increase,
    "task_success_rate" := Decrease]

  /** What a lookup in an object literal finds though it is not listed there. */
  const INHERITED: set<string> := {
    "constructor", "toString", "toLocaleString", "valueOf", "hasOwnProperty", "isPrototypeOf",
    "propertyIsEnumerable", "__defineGetter__", "__defineSetter__", "__lookupGetter__",
    "__lookupSetter__", "__proto__"}

  /**
   * The movement of a guardrail metric that does harm; an unlisted metric is harmed by an increase. A
   * metric named like an inherited property finds that instead, which is no movement: nothing harms it.
   */
  function Harm(metric: string): Option<Movement> {
    if metric in GUARDRAIL_HARM then Some(GUARDRAIL_HARM[metric])
    else if metric in INHERITED then None
    else Some(Increase)
  }

  datatype Observations = Observations(control: seq<real>, variant: seq<real>) {
    /** Complete pairs; the longer arm's surplus is not observed. */
    function Pairs(): (n: nat)
      ensures n <= |control| && n <= |variant|
    {
      if |control| < |variant| then |control| else |variant|
    }
  }

  const ALPHA := 0.05
  const RHO := 1.0

  /** The test after the first n observations of each arm. */
  function StateAfter(obs: Observations, n: nat): TestState
    requires n <= obs.Pairs()
  {
    TestState(After(obs.control[..n]), After(obs.variant[..n]), ALPHA, RHO)
  }

  function SequenceOf(m: Maths, obs: Observations): Evaluation {
    Evaluate(m, StateAfter(obs, obs.Pairs()))
  }

  method RunSequence(m: Maths, obs: Observations) returns (e: Evaluation)
    ensures e == SequenceOf(m, obs)
  {
    var test := new SequentialTest(ALPHA, RHO);
    var n := obs.Pairs();
    for i := 0 to n
      invariant fresh(test)
      invariant test.State() == StateAfter(obs, i)
    {
      assert obs.control[..i + 1][..i] == obs.control[..i];
      assert obs.variant[..i + 1][..i] == obs.variant[..i];
      test.Record(Control, obs.control[i]);
      test.Record(Variant, obs.variant[i]);
    }
    e := Evaluate(m, test.State());
  }

  /** The whole interval lies on that side of zero. */
  predicate Lies(i: Interval, side: Movement) {
    if side.Increase? then i.Above(0.0) else i.Below(0.0)
  }

  predicate LiesHarmfully(i: Interval, metric: string) {
    Harm(metric).Some? && Lies(i, Harm(metric).value)
  }

  datatype Guardrail = Guardrail(metric: string, observations: Observations)

  datatype Setup = Setup(
    direction: Movement,
    target: Observations,
    guardrails: seq<Guardrail>,
    targetQuery: string,
    guardrailQueries: map<string, string>)

  datatype GuardrailOutcome = GuardrailOutcome(metric: string, breached: bool, effect: real, queryId: string)

  /** The query a guardrail is cited by: its own, or the target's if it has none. */
  function QueryOf(s: Setup, metric: string): string {
    if metric in s.guardrailQueries then s.guardrailQueries[metric] else s.targetQuery
  }

  function Outcome(m: Maths, s: Setup, g: Guardrail): GuardrailOutcome {
    var e := SequenceOf(m, g.observations);
    GuardrailOutcome(g.metric, e.decision != Inconclusive && LiesHarmfully(e.interval, g.metric), e.effect,
                     QueryOf(s, g.metric))
  }

  function Outcomes(m: Maths, s: Setup, guardrails: seq<Guardrail>): (r: seq<GuardrailOutcome>)
    ensures |r| == |guardrails|
    ensures forall i | 0 <= i < |r| :: r[i] == Outcome(m, s, guardrails[i])
  {
    if guardrails == [] then []
    else Outcomes(m, s, guardrails[..|guardrails| - 1]) + [Outcome(m, s, guardrails[|guardrails| - 1])]
  }

  function Breached(outcomes: seq<GuardrailOutcome>): seq<string> {
    if outcomes == [] then []
    else
      var last := outcomes[|outcomes| - 1];
      Breached(outcomes[..|outcomes| - 1]) + if last.breached then [last.metric] else []
  }

  datatype PassResult = Undecided | Concluded(decision: Decision) | Stopped(breached: seq<string>)

  datatype Verdict = Verdict(
    decision: Decision,
    evaluation: Evaluation,
    outcomes: seq<(string, bool)>,
    queryIds: seq<Option<string>>)

  datatype Severity = Critical | Positive | Warning

  /** A number of a finding, with the query it is cited by. */
  datatype Metric = Metric(effect: real, queryId: string)

  datatype Finding = Finding(decision: Decision, severity: Severity, metrics: seq<Metric>, evidence: seq<string>)

  /** What a pass asks of the registry. */
  datatype ClientCall =
    | WriteVerdict(verdict: Verdict)
    | UpdateExperiment(status: string)
    | PublishFinding(finding: Finding)

  function Evidence(s: Setup, outcomes: seq<GuardrailOutcome>): seq<string> {
    [s.targetQuery] + seq(|outcomes|, i requires 0 <= i < |outcomes| => outcomes[i].queryId)
  }

  function Metrics(s: Setup, target: Evaluation, outcomes: seq<GuardrailOutcome>): seq<Metric> {
    [Metric(target.effect, s.targetQuery)]
    + seq(|outcomes|, i requires 0 <= i < |outcomes| => Metric(outcomes[i].effect, outcomes[i].queryId))
  }

  function Flags(outcomes: seq<GuardrailOutcome>): seq<(string, bool)> {
    seq(|outcomes|, i requires 0 <= i < |outcomes| => (outcomes[i].metric, outcomes[i].breached))
  }

  /** A missing query id is written into the verdict as undefined. */
  function VerdictQueries(s: Setup, breached: seq<string>): seq<Option<string>> {
    [Some(s.targetQuery)] + seq(|breached|, i requires 0 <= i < |breached| =>
      if breached[i] in s.guardrailQueries then Some(s.guardrailQueries[breached[i]]) else None)
  }

  function Report(s: Setup, decision: Decision, status: string, severity: Severity,
                  target: Evaluation, outcomes: seq<GuardrailOutcome>, breached: seq<string>): seq<ClientCall> {
    [WriteVerdict(Verdict(decision, target, Flags(outcomes), VerdictQueries(s, breached))),
     UpdateExperiment(status),
     PublishFinding(Finding(decision, severity, Metrics(s, target, outcomes), Evidence(s, outcomes)))]
  }

  function TargetDecision(i: Interval, direction: Movement): Decision {
    if Lies(i, direction) then Ship else if Lies(i, direction.Opposite()) then Revert else Inconclusive
  }

  /** The result of a pass and what it reports, given the target's evaluation and the guardrail outcomes. */
  function Answer(s: Setup, target: Evaluation, outcomes: seq<GuardrailOutcome>): (PassResult, seq<ClientCall>) {
    var breached := Breached(outcomes);
    if breached != [] then
      (Stopped(breached), Report(s, Revert, "stopped", Critical, target, outcomes, breached))
    else
      var decision := TargetDecision(target.interval, s.direction);
      if decision == Inconclusive then (Undecided, [])
      else
        (Concluded(decision),
         Report(s, decision, "concluded", if decision == Ship then Positive else Warning, target, outcomes, []))
  }

  function Verdicts(m: Maths, s: Setup): (PassResult, seq<ClientCall>) {
    Answer(s, SequenceOf(m, s.target), Outcomes(m, s, s.guardrails))
  }

  /** The calls a registry has served, in order. */
  class RegistryClient {
    var calls: seq<ClientCall>

    constructor ()
      ensures calls == []
    {
      calls := [];
    }

    method Serve(call: ClientCall)
      modifies this
      ensures calls == old(calls) + [call]
    {
      calls := calls + [call];
    }
  }

  method CheckGuardrail(m: Maths, s: Setup, g: Guardrail) returns (outcome: GuardrailOutcome)
    ensures outcome == Outcome(m, s, g)
  {
    var e := RunSequence(m, g.observations);
    var harm := Harm(g.metric);
    var isBreach := e.decision != Inconclusive
      && ((harm == Some(Increase) && e.interval.Above(0.0)) || (harm == Some(Decrease) && e.interval.Below(0.0)));
    var query := if g.metric in s.guardrailQueries then s.guardrailQueries[g.metric] else s.targetQuery;
    outcome := GuardrailOutcome(g.metric, isBreach, e.effect, query);
  }

  lemma {:induction false} OneMore(m: Maths, s: Setup, i: nat)
    requires i < |s.guardrails|
    ensures var before, outcome := Outcomes(m, s, s.guardrails[..i]), Outcome(m, s, s.guardrails[i]);
            && Outcomes(m, s, s.guardrails[..i + 1]) == before + [outcome]
            && Breached(before + [outcome]) == Breached(before) + if outcome.breached then [outcome.metric] else []
  {
    var before, outcome := Outcomes(m, s, s.guardrails[..i]), Outcome(m, s, s.guardrails[i]);
    assert s.guardrails[..i + 1][..i] == s.guardrails[..i];
    assert (before + [outcome])[..|before|] == before;
  }

  method CheckGuardrails(m: Maths, s: Setup) returns (outcomes: seq<GuardrailOutcome>, breached: seq<string>)
    ensures outcomes == Outcomes(m, s, s.guardrails) && breached == Breached(outcomes)
  {
    breached, outcomes := [], [];
    for i := 0 to |s.guardrails|
      invariant outcomes == Outcomes(m, s, s.guardrails[..i])
      invariant breached == Breached(outcomes)
    {
      OneMore(m, s, i);
      var outcome := CheckGuardrail(m, s, s.guardrails[i]);
      if outcome.breached {
        breached := breached + [outcome.metric];
      }
      outcomes := outcomes + [outcome];
    }
    assert s.guardrails[..|s.guardrails|] == s.guardrails;
  }

  method SendReport(client: RegistryClient, s: Setup, decision: Decision, status: string, severity: Severity,
                    target: Evaluation, outcomes: seq<GuardrailOutcome>, breached: seq<string>)
    modifies client
    ensures client.calls == old(client.calls) + Report(s, decision, status, severity, target, outcomes, breached)
  {
    client.Serve(WriteVerdict(Verdict(decision, target, Flags(outcomes), VerdictQueries(s, breached))));
    client.Serve(UpdateExperiment(status));
    client.Serve(PublishFinding(Finding(decision, severity, Metrics(s, target, outcomes), Evidence(s, outcomes))));
  }

  method MonitorExperiment(m: Maths, s: Setup, client: RegistryClient) returns (result: PassResult)
    modifies client
    ensures result == Verdicts(m, s).0
    ensures client.calls == old(client.calls) + Verdicts(m, s).1
  {
    var outcomes, breached := CheckGuardrails(m, s);
    var target := RunSequence(m, s.target);
    result := Conclude(s, target, outcomes, breached, client);
  }

  method Conclude(s: Setup, target: Evaluation, outcomes: seq<GuardrailOutcome>, breached: seq<string>,
                  client: RegistryClient)
    returns (result: PassResult)
    requires breached == Breached(outcomes)
    modifies client
    ensures result == Answer(s, target, outcomes).0
    ensures client.calls == old(client.calls) + Answer(s, target, outcomes).1
  {
    if 0 < |breached| {
      SendReport(client, s, Revert, "stopped", Critical, target, outcomes, breached);
      return Stopped(breached);
    }
    var i := target.interval;
    var decision :=
      if s.direction == Increase then
        if i.Above(0.0) then Ship else if i.Below(0.0) then Revert else Inconclusive
      else
        if i.Below(0.0) then Ship else if i.Above(0.0) then Revert else Inconclusive;
    if decision == Inconclusive {
      return Undecided;
    }
    SendReport(client, s, decision, "concluded", if decision == Ship then Positive else Warning, target, outcomes, []);
    return Concluded(decision);
  }

  /** The evaluation compares the means of the complete pairs, at a false-positive ceiling of 5%. */
  lemma {:induction false} PairsAreCompared(m: Maths, obs: Observations)
    ensures var n := if |obs.control| < |obs.variant| then |obs.control| else |obs.variant|;
            var e := SequenceOf(m, obs);
            && e.samples == Samples(n, n)
            && (n == 0 ==> e.decision == Inconclusive && e.effect == 0.0 && e.interval == Whole)
            && (0 < n ==>
                  && e.effect == Sum(obs.variant[..n]) / n as real - Sum(obs.control[..n]) / n as real
                  && e.interval.Between?
                  && e.interval.lower == e.effect - 2.0 * CsRadius(m, n, 0.025, 1.0)
                  && e.interval.upper == e.effect + 2.0 * CsRadius(m, n, 0.025, 1.0))
  {
    EvaluationIs(m, obs.control[..obs.Pairs()], obs.variant[..obs.Pairs()], ALPHA, RHO);
  }

  /* ---------------- what a verdict means ---------------- */

  /** The guardrail's interval lies wholly on its harmful side. */
  predicate Harmed(m: Maths, g: Guardrail) {
    LiesHarmfully(SequenceOf(m, g.observations).interval, g.metric)
  }

  lemma {:induction false} BreachIsHarm(m: Maths, s: Setup, g: Guardrail)
    requires Lawful(m)
    ensures Outcome(m, s, g).breached <==> Harmed(m, g)
  {
  }

  /** What the pass keeps of one guardrail: its name, whether it was harmed, its own effect and a query. */
  lemma {:induction false} OutcomeTells(m: Maths, s: Setup, g: Guardrail)
    requires Lawful(m)
    ensures var o := Outcome(m, s, g);
            && o.metric == g.metric && (o.breached <==> Harmed(m, g))
            && o.effect == SequenceOf(m, g.observations).effect
            && (g.metric in s.guardrailQueries ==> o.queryId == s.guardrailQueries[g.metric])
            && (g.metric !in s.guardrailQueries ==> o.queryId == s.targetQuery)
  {
    BreachIsHarm(m, s, g);
  }

  /** An unlisted metric breaches exactly if it rises for certain and is not named like an inherited property. */
  lemma {:induction false} UnlistedBreachesExactly(m: Maths, s: Setup, g: Guardrail)
    requires Lawful(m) && g.metric !in GUARDRAIL_HARM
    ensures Outcome(m, s, g).breached <==> g.metric !in INHERITED && SequenceOf(m, g.observations).interval.Above(0.0)
  {
    BreachIsHarm(m, s, g);
  }

  /** A metric is listed exactly if one of its outcomes is flagged. */
  lemma {:induction false} BreachedExactly(outcomes: seq<GuardrailOutcome>, metric: string)
    ensures metric in Breached(outcomes) <==>
              exists i | 0 <= i < |outcomes| :: outcomes[i].breached && outcomes[i].metric == metric
  {
    if outcomes != [] {
      var front := outcomes[..|outcomes| - 1];
      BreachedExactly(front, metric);
      assert forall i | 0 <= i < |front| :: front[i] == outcomes[i];
    }
  }

  lemma {:induction false} SomeBreach(outcomes: seq<GuardrailOutcome>)
    ensures Breached(outcomes) != [] <==> exists i | 0 <= i < |outcomes| :: outcomes[i].breached
  {
    if Breached(outcomes) != [] {
      BreachedExactly(outcomes, Breached(outcomes)[0]);
    }
    if i :| 0 <= i < |outcomes| && outcomes[i].breached {
      BreachedExactly(outcomes, outcomes[i].metric);
    }
  }

  predicate AnyHarmed(m: Maths, guardrails: seq<Guardrail>) {
    exists i | 0 <= i < |guardrails| :: Harmed(m, guardrails[i])
  }

  lemma {:induction false} FlagsAreHarms(m: Maths, s: Setup)
    requires Lawful(m)
    ensures forall i | 0 <= i < |s.guardrails| ::
              var o := Outcomes(m, s, s.guardrails)[i];
              (o.breached <==> Harmed(m, s.guardrails[i])) && o.metric == s.guardrails[i].metric
  {
    forall i | 0 <= i < |s.guardrails|
      ensures var o := Outcomes(m, s, s.guardrails)[i];
              (o.breached <==> Harmed(m, s.guardrails[i])) && o.metric == s.guardrails[i].metric
    {
      BreachIsHarm(m, s, s.guardrails[i]);
    }
  }

  lemma {:induction false} StoppedExactly(m: Maths, s: Setup)
    requires Lawful(m)
    ensures Breached(Outcomes(m, s, s.guardrails)) != [] <==> AnyHarmed(m, s.guardrails)
  {
    FlagsAreHarms(m, s);
    SomeBreach(Outcomes(m, s, s.guardrails));
  }

  /**
   * A pass stops the experiment exactly when some guardrail is harmed, whatever the target does, and
   * concludes exactly when none is and the target's interval lies wholly on one side.
   */
  lemma {:induction false} VerdictExactly(m: Maths, s: Setup)
    requires Lawful(m)
    ensures var r, i := Verdicts(m, s).0, SequenceOf(m, s.target).interval;
            && (r.Stopped? <==> AnyHarmed(m, s.guardrails))
            && (r == Concluded(Ship) <==> !AnyHarmed(m, s.guardrails) && Lies(i, s.direction))
            && (r == Concluded(Revert) <==> !AnyHarmed(m, s.guardrails) && Lies(i, s.direction.Opposite()))
            && r != Concluded(Inconclusive)
  {
    StoppedExactly(m, s);
    IntervalsAreOrdered(m, s.target);
  }

  lemma {:induction false} IntervalsAreOrdered(m: Maths, obs: Observations)
    requires Lawful(m)
    ensures var i := SequenceOf(m, obs).interval; !(i.Above(0.0) && i.Below(0.0))
  {
    if 0 < obs.Pairs() {
      RadiusIsNotNegative(m, obs.Pairs(), ALPHA / 2.0, RHO);
    }
  }

  lemma {:induction false} InheritedAreUnlisted(metric: string)
    requires metric in INHERITED
    ensures metric !in GUARDRAIL_HARM
  {
    assert "isPrototypeOf"[0] != "override_rate"[0];
  }

  /** No guardrail's harm is a movement. */
  ghost predicate NothingHarms(guardrails: seq<Guardrail>) {
    forall i | 0 <= i < |guardrails| :: Harm(guardrails[i].metric).None?
  }

  /** A name harms nothing exactly if it is that of an inherited property. */
  lemma {:induction false} InheritedHarmsNothing(metric: string)
    ensures Harm(metric).None?
       <==> metric in {"constructor", "toString", "toLocaleString", "valueOf", "hasOwnProperty", "isPrototypeOf",
                       "propertyIsEnumerable", "__defineGetter__", "__defineSetter__", "__lookupGetter__",
                       "__lookupSetter__", "__proto__"}
  {
    if metric in INHERITED {
      InheritedAreUnlisted(metric);
    }
  }

  /** Guardrails that nothing harms stop nothing, whatever they observe. */
  lemma {:induction false} InheritedNamesNeverStop(m: Maths, s: Setup)
    requires Lawful(m) && NothingHarms(s.guardrails)
    ensures !Verdicts(m, s).0.Stopped?
  {
    StoppedExactly(m, s);
  }

  /** A stop names exactly the harmed metrics. */
  lemma {:induction false} StopNamesTheHarmed(m: Maths, s: Setup, metric: string)
    requires Lawful(m) && Verdicts(m, s).0.Stopped?
    ensures metric in Verdicts(m, s).0.breached <==>
              exists i | 0 <= i < |s.guardrails| :: Harmed(m, s.guardrails[i]) && s.guardrails[i].metric == metric
  {
    FlagsAreHarms(m, s);
    BreachedExactly(Outcomes(m, s, s.guardrails), metric);
  }

  /** The side on which each guardrail metric does harm, by name. */
  lemma {:induction false} HarmByName(m: Maths, g: Guardrail)
    ensures var i := SequenceOf(m, g.observations).interval;
            Harmed(m, g)
            <==> if g.metric == "override_rate" || g.metric == "cost_per_completed_task" then i.Above(0.0)
                 else if g.metric == "task_success_rate" then i.Below(0.0)
                 else g.metric !in INHERITED && i.Above(0.0)
  {
    assert "task_success_rate"[0] == 't' && "override_rate"[0] == 'o' && "cost_per_completed_task"[0] == 'c';
  }

  /** The target's query, then each guardrail's: its own, or the target's where it has none. */
  ghost predicate EvidenceCites(s: Setup, evidence: seq<string>) {
    && |evidence| == 1 + |s.guardrails| && evidence[0] == s.targetQuery
    && forall i | 0 <= i < |s.guardrails| ::
         var metric := s.guardrails[i].metric;
         evidence[1 + i] == if metric in s.guardrailQueries then s.guardrailQueries[metric] else s.targetQuery
  }

  /** The effects of the target and of each guardrail, each with its own query in the evidence. */
  ghost predicate NumbersAreCited(m: Maths, s: Setup, finding: Finding) {
    && |finding.metrics| == |finding.evidence| == 1 + |s.guardrails|
    && finding.metrics[0] == Metric(SequenceOf(m, s.target).effect, finding.evidence[0])
    && forall i | 0 <= i < |s.guardrails| ::
         finding.metrics[1 + i] == Metric(SequenceOf(m, s.guardrails[i].observations).effect, finding.evidence[1 + i])
  }

  /** The queries of the harmed guardrails, in order; undefined where a guardrail has none. */
  function HarmedQueries(m: Maths, s: Setup, guardrails: seq<Guardrail>): seq<Option<string>> {
    if guardrails == [] then []
    else
      var front, last := guardrails[..|guardrails| - 1], guardrails[|guardrails| - 1];
      if !Harmed(m, last) then HarmedQueries(m, s, front)
      else
        HarmedQueries(m, s, front)
        + [if last.metric in s.guardrailQueries then Some(s.guardrailQueries[last.metric]) else None]
  }

  /** The verdict of a pass: every guardrail with whether it was harmed, the target, and the queries behind it. */
  ghost predicate VerdictTells(m: Maths, s: Setup, verdict: Verdict, decision: Decision) {
    && verdict.decision == decision
    && verdict.evaluation == SequenceOf(m, s.target)
    && |verdict.outcomes| == |s.guardrails|
    && (forall i | 0 <= i < |s.guardrails| ::
          verdict.outcomes[i] == (s.guardrails[i].metric, Harmed(m, s.guardrails[i])))
    && verdict.queryIds == [Some(s.targetQuery)] + HarmedQueries(m, s, s.guardrails)
  }

  /** A verdict, the status and a finding, in this order. */
  ghost predicate Reported(m: Maths, s: Setup, calls: seq<ClientCall>, result: PassResult) {
    var decision := if result.Concluded? then result.decision else Revert;
    && |calls| == 3 && calls[0].WriteVerdict? && calls[2].PublishFinding?
    && VerdictTells(m, s, calls[0].verdict, decision)
    && calls[1] == UpdateExperiment(if result.Stopped? then "stopped" else "concluded")
    && calls[2].finding.decision == decision
    && calls[2].finding.severity == (if result.Stopped? then Critical else if decision == Ship then Positive
                                     else Warning)
    && EvidenceCites(s, calls[2].finding.evidence) && NumbersAreCited(m, s, calls[2].finding)
  }

  lemma {:induction false} OneMoreQuery(s: Setup, breached: seq<string>, metric: string)
    ensures VerdictQueries(s, breached + [metric])
         == VerdictQueries(s, breached)
            + [if metric in s.guardrailQueries then Some(s.guardrailQueries[metric]) else None]
  {
  }

  lemma {:induction false} OneMoreBreach(m: Maths, s: Setup, front: seq<Guardrail>, last: Guardrail)
    requires Lawful(m)
    ensures Breached(Outcomes(m, s, front + [last]))
         == if Harmed(m, last) then Breached(Outcomes(m, s, front)) + [last.metric] else Breached(Outcomes(m, s, front))
  {
    var before, outcome := Outcomes(m, s, front), Outcome(m, s, last);
    BreachIsHarm(m, s, last);
    assert (front + [last])[..|front|] == front;
    assert Outcomes(m, s, front + [last]) == before + [outcome];
    assert (before + [outcome])[..|before|] == before;
  }

  function QueryFor(s: Setup, metric: string): Option<string> {
    if metric in s.guardrailQueries then Some(s.guardrailQueries[metric]) else None
  }

  lemma {:induction false} HarmedOneMore(m: Maths, s: Setup, front: seq<Guardrail>, last: Guardrail)
    ensures HarmedQueries(m, s, front + [last])
         == if Harmed(m, last) then HarmedQueries(m, s, front) + [QueryFor(s, last.metric)]
            else HarmedQueries(m, s, front)
  {
    assert (front + [last])[..|front|] == front;
  }

  lemma {:induction false} QueriesStep(s: Setup, before: seq<string>, queries: seq<Option<string>>, metric: string)
    requires VerdictQueries(s, before) == [Some(s.targetQuery)] + queries
    ensures VerdictQueries(s, before + [metric]) == [Some(s.targetQuery)] + (queries + [QueryFor(s, metric)])
  {
    OneMoreQuery(s, before, metric);
  }

  lemma {:induction false} BreachedQueries(m: Maths, s: Setup, guardrails: seq<Guardrail>, breached: seq<string>)
    requires Lawful(m) && breached == Breached(Outcomes(m, s, guardrails))
    ensures VerdictQueries(s, breached) == [Some(s.targetQuery)] + HarmedQueries(m, s, guardrails)
  {
    if guardrails == [] {
      assert VerdictQueries(s, []) == [Some(s.targetQuery)];
    } else {
      var front, last := guardrails[..|guardrails| - 1], guardrails[|guardrails| - 1];
      assert guardrails == front + [last];
      BreachedQueries(m, s, front, Breached(Outcomes(m, s, front)));
      OneMoreBreach(m, s, front, last);
      HarmedOneMore(m, s, front, last);
      if Harmed(m, last) {
        QueriesStep(s, Breached(Outcomes(m, s, front)), HarmedQueries(m, s, front), last.metric);
      }
    }
  }

  lemma {:induction false} ReportTells(m: Maths, s: Setup, decision: Decision, status: string, severity: Severity,
                                       breached: seq<string>)
    requires Lawful(m) && breached == Breached(Outcomes(m, s, s.guardrails))
    ensures var calls := Report(s, decision, status, severity, SequenceOf(m, s.target),
                                Outcomes(m, s, s.guardrails), breached);
            && |calls| == 3 && calls[0].WriteVerdict? && calls[1] == UpdateExperiment(status)
            && VerdictTells(m, s, calls[0].verdict, decision)
  {
    FlagsAreHarms(m, s);
    BreachedQueries(m, s, s.guardrails, breached);
  }

  lemma {:induction false} OutcomesAreCited(m: Maths, s: Setup, outcomes: seq<GuardrailOutcome>)
    requires outcomes == Outcomes(m, s, s.guardrails)
    ensures EvidenceCites(s, Evidence(s, outcomes))
  {
    forall i | 0 <= i < |s.guardrails|
      ensures Evidence(s, outcomes)[1 + i] == QueryOf(s, s.guardrails[i].metric)
    {
      assert outcomes[i] == Outcome(m, s, s.guardrails[i]);
    }
  }

  lemma {:induction false} MetricAt(s: Setup, target: Evaluation, outcomes: seq<GuardrailOutcome>, i: nat)
    requires i < |outcomes|
    ensures Metrics(s, target, outcomes)[1 + i] == Metric(outcomes[i].effect, outcomes[i].queryId)
    ensures Evidence(s, outcomes)[1 + i] == outcomes[i].queryId
  {
  }

  lemma {:induction false} OutcomesAreNumbers(m: Maths, s: Setup, outcomes: seq<GuardrailOutcome>, finding: Finding)
    requires outcomes == Outcomes(m, s, s.guardrails)
    requires finding.metrics == Metrics(s, SequenceOf(m, s.target), outcomes)
    requires finding.evidence == Evidence(s, outcomes)
    ensures NumbersAreCited(m, s, finding)
  {
    forall i | 0 <= i < |s.guardrails|
      ensures finding.metrics[1 + i]
           == Metric(SequenceOf(m, s.guardrails[i].observations).effect, finding.evidence[1 + i])
    {
      MetricAt(s, SequenceOf(m, s.target), outcomes, i);
      assert outcomes[i] == Outcome(m, s, s.guardrails[i]);
    }
  }

  lemma {:induction false} ReportCites(m: Maths, s: Setup, decision: Decision, status: string, severity: Severity,
                                       breached: seq<string>)
    ensures var calls := Report(s, decision, status, severity, SequenceOf(m, s.target),
                                Outcomes(m, s, s.guardrails), breached);
            && |calls| == 3 && calls[2].PublishFinding?
            && calls[2].finding.decision == decision && calls[2].finding.severity == severity
            && EvidenceCites(s, calls[2].finding.evidence) && NumbersAreCited(m, s, calls[2].finding)
  {
    var target, outcomes := SequenceOf(m, s.target), Outcomes(m, s, s.guardrails);
    OutcomesAreCited(m, s, outcomes);
    OutcomesAreNumbers(m, s, outcomes,
                       Finding(decision, severity, Metrics(s, target, outcomes), Evidence(s, outcomes)));
  }

  /**
   * Nothing reaches the registry before a verdict, and a verdict arrives whole, in order, true to what the
   * guardrails and the target did, and cited.
   */
  lemma {:induction false} EveryVerdictIsReported(m: Maths, s: Setup)
    ensures var (r, calls) := Verdicts(m, s);
            && (calls == [] <==> r == Undecided)
            && (r != Undecided && Lawful(m) ==> Reported(m, s, calls, r))
  {
    if Lawful(m) {
      VerdictIsReported(m, s);
    }
  }

  lemma {:induction false} VerdictIsReported(m: Maths, s: Setup)
    requires Lawful(m)
    ensures var (r, calls) := Verdicts(m, s);
            r != Undecided ==> Reported(m, s, calls, r)
  {
    var target, breached := SequenceOf(m, s.target), Breached(Outcomes(m, s, s.guardrails));
    var decision := TargetDecision(target.interval, s.direction);
    if breached != [] {
      ReportTells(m, s, Revert, "stopped", Critical, breached);
      ReportCites(m, s, Revert, "stopped", Critical, breached);
    } else if decision != Inconclusive {
      var severity := if decision == Ship then Positive else Warning;
      ReportTells(m, s, decision, "concluded", severity, []);
      ReportCites(m, s, decision, "concluded", severity, []);
    }
  }

  /* ---------------- how much data a verdict takes ---------------- */

  /** ln 1600 is about 7.38, ln 16000 about 9.68 and ln 19200 about 9.86. */
  ghost predicate KnownLogs(m: Maths) {
    7.2 <= m.ln(1600.0) && 9.1 <= m.ln(16000.0) && m.ln(19200.0) <= 10.0
  }

  const HALF_ALPHA := 0.025

  lemma WideFactor(f: real, low: real, d: real, l: real)
    requires 0.0 < d <= l * low && f * d == low
    ensures 1.0 <= f * l
  {
    var g := f * l;
    assert g * d == l * low;
    if g < 1.0 {
      ProductStrict(g, 1.0, d);
    }
  }

  lemma SquareAtMost(x: real, d: real)
    requires 1.0 <= x <= 8.0 && d == x * x * RHO
    ensures d <= 7.2 * (x + 1.0)
  {
    var square := ProductAtMost(x, 8.0, x);
    assert square == d;
  }

  lemma RootAtLeastHalf(r: real, square: real)
    requires 0.0 <= r && r * r == square && 0.25 <= square
    ensures 0.5 <= r
  {
    if r < 0.5 {
      ProductMonotone(r, 0.5, r);
    }
  }

  lemma RootBelowHalf(r: real, square: real)
    requires 0.0 <= r && r * r == square && square < 0.25
    ensures r < 0.5
  {
    if 0.5 <= r {
      ProductMonotone(0.5, r, r);
    }
  }

  /** How large the logarithm in the radius is at least, at n <= 10. */
  lemma {:induction false} EarlyLog(m: Maths, n: nat) returns (l: real)
    requires Lawful(m) && KnownLogs(m) && 0 < n <= 10
    ensures l == (if n <= 8 then 7.2 else 9.1) && l <= m.ln((n as real + 1.0) * 1600.0)
  {
    if n <= 8 {
      LawAt(m, 1600.0, (n as real + 1.0) * 1600.0);
      l := 7.2;
    } else {
      LawAt(m, 16000.0, (n as real + 1.0) * 1600.0);
      l := 9.1;
    }
  }

  /** The square of n is at most that much. */
  lemma EarlySquare(n: nat, d: real)
    requires 0 < n <= 10 && d == n as real * n as real * RHO
    ensures d <= (if n <= 8 then 7.2 else 9.1) * (n as real + 1.0)
  {
    if n <= 8 {
      SquareAtMost(n as real, d);
    } else if n == 9 {
      assert d == 81.0;
    } else {
      assert d == 100.0;
    }
  }

  lemma LogOfLow(low: real)
    ensures low / (HALF_ALPHA * HALF_ALPHA) == low * 1600.0
  {
  }

  lemma QuarterAtLeast(f: real, l: real, log: real, square: real)
    requires 0.0 < f && 0.0 < l <= log && 1.0 <= f * l
    requires square == SIGMA2 * (f * Max(log, 0.0))
    ensures 0.25 <= square
  {
    ProductMonotone(l, log, f);
  }

  lemma {:induction false} EarlySquareIsWide(m: Maths, n: nat)
    requires Lawful(m) && KnownLogs(m) && 0 < n <= 10
    ensures 0.25 <= RadiusSquared(m, n as real, HALF_ALPHA, RHO)
  {
    var x := n as real;
    var f, low, d := Parts(x, RHO);
    var l := EarlyLog(m, n);
    EarlySquare(n, d);
    WideFactor(f, low, d, l);
    LogOfLow(low);
    RadiusByFactor(m, x, HALF_ALPHA, RHO, f, low, d);
    QuarterAtLeast(f, l, m.ln(low * 1600.0), RadiusSquared(m, x, HALF_ALPHA, RHO));
  }

  /** Up to ten pairs the two radii still cover every possible effect. */
  lemma {:induction false} EarlyRadiusIsWide(m: Maths, n: nat)
    requires Lawful(m) && KnownLogs(m) && 0 < n <= 10
    ensures 0.5 <= CsRadius(m, n, HALF_ALPHA, RHO)
  {
    EarlySquareIsWide(m, n);
    RadiusIsNotNegative(m, n, HALF_ALPHA, RHO);
    RootAtLeastHalf(CsRadius(m, n, HALF_ALPHA, RHO), RadiusSquared(m, n as real, HALF_ALPHA, RHO));
  }

  /** Whatever ten pairs of observations in [0, 1] say, a sequence over them stays inconclusive. */
  lemma {:induction false} TenPairsDecideNothing(m: Maths, obs: Observations)
    requires Lawful(m) && KnownLogs(m)
    requires InUnit(obs.control) && InUnit(obs.variant) && obs.Pairs() <= 10
    ensures SequenceOf(m, obs).decision == Inconclusive
  {
    var n := obs.Pairs();
    assert ALPHA / 2.0 == HALF_ALPHA;
    if 0 < n {
      EarlyRadiusIsWide(m, n);
    }
    WideRadiusDecidesNothing(m, obs.control[..n], obs.variant[..n], ALPHA, RHO);
  }

  lemma NarrowFactor(f: real, low: real, d: real, l: real)
    requires low == 12.0 && d == 121.0 && f * d == low && 0.0 <= l <= 10.0
    ensures 0.0 <= f * l < 1.0
  {
    assert f == 12.0 / 121.0;
  }

  lemma {:induction false} EleventhRadius(m: Maths)
    requires Lawful(m) && KnownLogs(m)
    ensures CsRadius(m, 11, HALF_ALPHA, RHO) < 0.5
  {
    var f, low, d := Parts(11.0, RHO);
    LogOfLow(low);
    LawAt(m, 1600.0, 19200.0);
    NarrowFactor(f, low, d, m.ln(19200.0));
    RadiusByFactor(m, 11.0, HALF_ALPHA, RHO, f, low, d);
    RadiusIsNotNegative(m, 11, HALF_ALPHA, RHO);
    RootBelowHalf(CsRadius(m, 11, HALF_ALPHA, RHO), RadiusSquared(m, 11.0, HALF_ALPHA, RHO));
  }

  lemma {:induction false} LaterRadiusIsNarrow(m: Maths, n: nat)
    requires Lawful(m) && KnownLogs(m) && 11 <= n
    ensures CsRadius(m, n, HALF_ALPHA, RHO) < 0.5
  {
    if n == 11 {
      EleventhRadius(m);
    } else {
      LaterRadiusIsNarrow(m, n - 1);
      LogOfLow(1.0);
      RadiusFalls(m, n - 1, HALF_ALPHA, RHO);
    }
  }

  function Repeated(x: real, n: nat): (r: seq<real>)
    ensures |r| == n && forall i | 0 <= i < n :: r[i] == x
  {
    if n == 0 then [] else Repeated(x, n - 1) + [x]
  }

  lemma {:induction false} SumRepeated(x: real, n: nat)
    ensures Sum(Repeated(x, n)) == x * n as real
  {
    if 0 < n {
      SumRepeated(x, n - 1);
      assert Repeated(x, n)[..n - 1] == Repeated(x, n - 1);
    }
  }

  /** n pairs that could not be more in favour of the variant. */
  function Unanimous(n: nat): Observations {
    Observations(Repeated(0.0, n), Repeated(1.0, n))
  }

  /** Eleven is how many it takes: unanimous pairs ship exactly from the eleventh on. */
  lemma {:induction false} UnanimousPairsShipExactly(m: Maths, n: nat)
    requires Lawful(m) && KnownLogs(m)
    ensures SequenceOf(m, Unanimous(n)).decision == Ship <==> 11 <= n
  {
    var obs := Unanimous(n);
    if n <= 10 {
      TenPairsDecideNothing(m, obs);
    } else {
      UnanimousPairsShip(m, n);
    }
  }

  lemma MeanRepeated(x: real, n: nat)
    requires 0 < n
    ensures Sum(Repeated(x, n)) / n as real == x
  {
    SumRepeated(x, n);
    Quotient(Sum(Repeated(x, n)), n as real);
    SameByProduct(Sum(Repeated(x, n)) / n as real, x, n as real);
  }

  lemma {:induction false} UnanimousPairsShip(m: Maths, n: nat)
    requires Lawful(m) && KnownLogs(m) && 11 <= n
    ensures SequenceOf(m, Unanimous(n)).decision == Ship
  {
    var obs := Unanimous(n);
    assert ALPHA / 2.0 == HALF_ALPHA;
    assert obs.control[..n] == obs.control && obs.variant[..n] == obs.variant;
    MeanRepeated(0.0, n);
    MeanRepeated(1.0, n);
    LaterRadiusIsNarrow(m, n);
  }
}
