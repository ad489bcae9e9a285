/**
 * The guarded rollout (packages/experiment-agent/src/rollout.ts): a canary within the tenant's limits,
 * one monitoring pass per check, and the autonomy grant read again before each of them.
 *
 * The environment is adversarial: any sequence of grants and any sequence of pass results.
 */
module Rollout {
  import opened Wrappers
  import Sequential
  import Monitor

  datatype Policy = Policy(
    changeClasses: seq<string>,
    maxTrafficShare: real,
    protectedTaskTypes: seq<string>,
    maxConcurrent: int)

  datatype Request = Request(changeClass: string, taskType: string, canaryShare: real)

  datatype OnHalt = Rollback | Freeze

  datatype Options = Options(
    policy: Policy,
    activeAutonomousRollouts: int,
    request: Request,
    maxChecks: Option<int>,
    onHalt: Option<OnHalt>)
  {
    function Checks(): int {
      if maxChecks.Some? then maxChecks.value else 20
    }

    function Canary(): real {
      if request.canaryShare < policy.maxTrafficShare then request.canaryShare else policy.maxTrafficShare
    }
  }

  /** The k-th read of the grant (0 before any exposure, then one per check) and the pass of check k. */
  datatype Environment = Environment(level: nat -> int, pass: nat -> Monitor.PassResult)

  const AUTONOMY := 3

  datatype Reason = AutonomyBelow3 | ClassNotDeclared | TaskTypeProtected | TooManyConcurrent
                  | StillInconclusive | GuardrailBreach(breached: seq<string>) | VerdictRevert

  datatype Outcome =
    | RequiresHuman(reason: Reason)
    | Promoted(checks: nat)
    | RolledBack(why: Reason, checks: nat)
    | Halted(checks: nat)

  datatype Action = HumanRequired(reason: Reason) | CanaryStarted(share: real)
                  | AutoPromoted(checks: nat) | AutoRollback(why: Reason, checks: nat)
                  | RolloutHalted(action: OnHalt, checks: nat)

  /** Every interaction with the outside, in order. */
  datatype Call =
    | ReadLevel(level: int)
    | SetShare(share: real)
    | Audit(action: Action)
    | Pass(result: Monitor.PassResult)

  /** Why the request may not run on its own, if so; the first matching reason is given. */
  function Refusal(o: Options, level: int): Option<Reason> {
    if level < AUTONOMY then Some(AutonomyBelow3)
    else if o.request.changeClass !in o.policy.changeClasses then Some(ClassNotDeclared)
    else if o.request.taskType in o.policy.protectedTaskTypes then Some(TaskTypeProtected)
    else if o.activeAutonomousRollouts >= o.policy.maxConcurrent then Some(TooManyConcurrent)
    else None
  }

  /** What check k does: the calls, and the outcome if the check ends the rollout. */
  function Check(o: Options, env: Environment, k: nat): (seq<Call>, Option<Outcome>) {
    var read := ReadLevel(env.level(k));
    if env.level(k) < AUTONOMY then
      var halt := if o.onHalt.Some? then o.onHalt.value else Rollback;
      ([read] + (if halt == Rollback then [SetShare(0.0)] else []) + [Audit(RolloutHalted(halt, k))], Some(Halted(k)))
    else
      var pass := Pass(env.pass(k));
      match env.pass(k)
      case Stopped(breached) =>
        var why := GuardrailBreach(breached);
        ([read, pass, SetShare(0.0), Audit(AutoRollback(why, k))], Some(RolledBack(why, k)))
      case Concluded(decision) =>
        if decision == Sequential.Ship then
          ([read, pass, SetShare(1.0), Audit(AutoPromoted(k))], Some(Promoted(k)))
        else
          ([read, pass, SetShare(0.0), Audit(AutoRollback(VerdictRevert, k))], Some(RolledBack(VerdictRevert, k)))
      case Undecided => ([read, pass], None)
  }

  /** The checks from k on. */
  function Checking(o: Options, env: Environment, k: nat): (seq<Call>, Outcome)
    decreases o.Checks() - k
  {
    if o.Checks() < k then ([Audit(HumanRequired(StillInconclusive))], RequiresHuman(StillInconclusive))
    else
      var (calls, outcome) := Check(o, env, k);
      if outcome.Some? then (calls, outcome.value)
      else
        var (later, last) := Checking(o, env, k + 1);
        (calls + later, last)
  }

  function Guarded(o: Options, env: Environment): (seq<Call>, Outcome) {
    var read := ReadLevel(env.level(0));
    var refusal := Refusal(o, env.level(0));
    if refusal.Some? then
      ([read, Audit(HumanRequired(refusal.value))], RequiresHuman(refusal.value))
    else
      var (calls, outcome) := Checking(o, env, 1);
      ([read, SetShare(o.Canary()), Audit(CanaryStarted(o.Canary()))] + calls, outcome)
  }

  /* ---------------- the loop ---------------- */

  /** The outside world: answers asked and passes from its script and logs every call. */
  class World {
    const env: Environment
    var asked: nat
    var log: seq<Call>

    constructor (env: Environment)
      ensures this.env == env && asked == 0 && log == []
    {
      this.env, asked, log := env, 0, [];
    }

    method AutonomyLevel() returns (level: int)
      modifies this
      ensures level == env.level(old(asked)) && asked == old(asked) + 1
      ensures log == old(log) + [ReadLevel(level)]
    {
      level := env.level(asked);
      asked, log := asked + 1, log + [ReadLevel(level)];
    }

    method RunMonitor(check: nat) returns (result: Monitor.PassResult)
      modifies this`log
      ensures result == env.pass(check)
      ensures log == old(log) + [Pass(result)]
    {
      result := env.pass(check);
      log := log + [Pass(result)];
    }

    method SetRolloutShare(share: real)
      modifies this`log
      ensures log == old(log) + [SetShare(share)]
    {
      log := log + [SetShare(share)];
    }

    method Record(action: Action)
      modifies this`log
      ensures log == old(log) + [Audit(action)]
    {
      log := log + [Audit(action)];
    }
  }

  method RunGuardedRollout(o: Options, world: World) returns (outcome: Outcome)
    requires world.asked == 0
    modifies world
    ensures outcome == Guarded(o, world.env).1
    ensures world.log == old(world.log) + Guarded(o, world.env).0
  {
    var reason := AskPermission(o, world);
    if reason.Some? {
      return RequiresHuman(reason.value);
    }
    world.SetRolloutShare(o.Canary());
    world.Record(CanaryStarted(o.Canary()));
    outcome := RunChecks(o, world);
  }

  /** The grant, the declared change classes and the blast-radius limits, before any exposure. */
  method AskPermission(o: Options, world: World) returns (reason: Option<Reason>)
    requires world.asked == 0
    modifies world
    ensures world.asked == 1 && reason == Refusal(o, world.env.level(0))
    ensures world.log == old(world.log) + [ReadLevel(world.env.level(0))]
                         + if reason.Some? then [Audit(HumanRequired(reason.value))] else []
  {
    var level := world.AutonomyLevel();
    if level < AUTONOMY {
      reason := Some(AutonomyBelow3);
    } else if o.request.changeClass !in o.policy.changeClasses {
      reason := Some(ClassNotDeclared);
    } else if o.request.taskType in o.policy.protectedTaskTypes {
      reason := Some(TaskTypeProtected);
    } else if o.activeAutonomousRollouts >= o.policy.maxConcurrent {
      reason := Some(TooManyConcurrent);
    } else {
      return None;
    }
    world.Record(HumanRequired(reason.value));
  }

  method RunChecks(o: Options, world: World) returns (outcome: Outcome)
    requires world.asked == 1
    modifies world
    ensures outcome == Checking(o, world.env, 1).1
    ensures world.log == old(world.log) + Checking(o, world.env, 1).0
  {
    var check: nat := 1;
    while check <= o.Checks()
      invariant 1 <= check && world.asked == check
      invariant world.log + Checking(o, world.env, check).0 == old(world.log) + Checking(o, world.env, 1).0
      invariant Checking(o, world.env, check).1 == Checking(o, world.env, 1).1
      decreases o.Checks() - check
    {
      ghost var before := world.log;
      var done := RunCheck(o, world, check);
      if done.Some? {
        return done.value;
      }
      assert world.log + Checking(o, world.env, check + 1).0 == before + Checking(o, world.env, check).0;
      check := check + 1;
    }
    world.Record(HumanRequired(StillInconclusive));
    outcome := RequiresHuman(StillInconclusive);
  }

  method RunCheck(o: Options, world: World, check: nat) returns (done: Option<Outcome>)
    requires world.asked == check
    modifies world
    ensures world.asked == check + 1
    ensures done == Check(o, world.env, check).1
    ensures world.log == old(world.log) + Check(o, world.env, check).0
  {
    var level := world.AutonomyLevel();
    if level < AUTONOMY {
      var halt := if o.onHalt.Some? then o.onHalt.value else Rollback;
      if halt == Rollback {
        world.SetRolloutShare(0.0);
      }
      world.Record(RolloutHalted(halt, check));
      return Some(Halted(check));
    }
    var result := world.RunMonitor(check);
    if result.Stopped? {
      world.SetRolloutShare(0.0);
      world.Record(AutoRollback(GuardrailBreach(result.breached), check));
      return Some(RolledBack(GuardrailBreach(result.breached), check));
    }
    if result.Concluded? {
      if result.decision == Sequential.Ship {
        world.SetRolloutShare(1.0);
        world.Record(AutoPromoted(check));
        return Some(Promoted(check));
      }
      world.SetRolloutShare(0.0);
      world.Record(AutoRollback(VerdictRevert, check));
      return Some(RolledBack(VerdictRevert, check));
    }
    done := None;
  }

  /* ---------------- which check ends it ---------------- */

  /** Check k ends the rollout: the grant is gone, or the pass has something to say. */
  predicate Settles(env: Environment, k: nat) {
    env.level(k) < 3 || env.pass(k) != Monitor.Undecided
  }

  predicate FirstSettled(o: Options, env: Environment, from: nat, k: nat) {
    && from <= k <= o.Checks()
    && Settles(env, k)
    && forall j | from <= j < k :: !Settles(env, j)
  }

  /** What the first settled check makes of the rollout, read off the grant and the pass alone. */
  predicate EndsAs(env: Environment, k: nat, outcome: Outcome) {
    && (env.level(k) < 3 <==> outcome == Halted(k))
    && (env.level(k) >= 3 && env.pass(k) == Monitor.Concluded(Sequential.Ship) <==> outcome == Promoted(k))
    && (env.level(k) >= 3 && env.pass(k) != Monitor.Concluded(Sequential.Ship) <==>
          outcome.RolledBack? && outcome.checks == k)
    && (outcome.RolledBack? ==>
          outcome.why == if env.pass(k).Stopped? then GuardrailBreach(env.pass(k).breached) else VerdictRevert)
  }

  lemma {:induction false} FirstSettledCheckDecides(o: Options, env: Environment, from: nat, k: nat)
    requires FirstSettled(o, env, from, k)
    ensures EndsAs(env, k, Checking(o, env, from).1)
    decreases k - from
  {
    if from < k {
      assert !Settles(env, from);
      FirstSettledCheckDecides(o, env, from + 1, k);
    }
  }

  lemma {:induction false} UnsettledGoesToAHuman(o: Options, env: Environment, from: nat)
    requires forall k | from <= k <= o.Checks() :: !Settles(env, k)
    ensures Checking(o, env, from).1 == RequiresHuman(StillInconclusive)
    decreases o.Checks() - from
  {
    if from <= o.Checks() {
      assert !Settles(env, from);
      UnsettledGoesToAHuman(o, env, from + 1);
    }
  }

  /* ---------------- who may expose at all ---------------- */

  /** Autonomy level 3, a declared class, an unprotected task type, and room for one more rollout. */
  predicate Permitted(o: Options, level: int) {
    && 3 <= level
    && o.request.changeClass in o.policy.changeClasses
    && o.request.taskType !in o.policy.protectedTaskTypes
    && o.activeAutonomousRollouts < o.policy.maxConcurrent
  }

  /** The first of the four tests that fails. */
  predicate FailsFirst(o: Options, level: int, reason: Reason) {
    match reason
    case AutonomyBelow3 => level < 3
    case ClassNotDeclared => 3 <= level && o.request.changeClass !in o.policy.changeClasses
    case TaskTypeProtected =>
      3 <= level && o.request.changeClass in o.policy.changeClasses
      && o.request.taskType in o.policy.protectedTaskTypes
    case TooManyConcurrent =>
      && 3 <= level && o.request.changeClass in o.policy.changeClasses
      && o.request.taskType !in o.policy.protectedTaskTypes
      && o.policy.maxConcurrent <= o.activeAutonomousRollouts
    case _ => false
  }

  /**
   * Nothing is ever exposed without permission, and with it the canary is: the requested share, or the cap
   * where more was requested. A refusal reads the grant once and leaves one entry with the first reason.
   */
  lemma {:induction false} PermissionExactly(o: Options, env: Environment)
    ensures var (log, outcome) := Guarded(o, env);
            && ((exists i :: 0 <= i < |log| && log[i].SetShare?) <==> Permitted(o, env.level(0)))
            && (!Permitted(o, env.level(0)) ==>
                  && outcome.RequiresHuman? && FailsFirst(o, env.level(0), outcome.reason)
                  && log == [ReadLevel(env.level(0)), Audit(HumanRequired(outcome.reason))])
            && (Permitted(o, env.level(0)) ==>
                  && 3 <= |log| && log[0] == ReadLevel(env.level(0)) && log[1].SetShare?
                  && log[1].share == (if o.request.canaryShare <= o.policy.maxTrafficShare
                                      then o.request.canaryShare else o.policy.maxTrafficShare)
                  && log[2] == Audit(CanaryStarted(log[1].share)))
  {
    var log := Guarded(o, env).0;
    if Permitted(o, env.level(0)) {
      assert log[1].SetShare?;
    }
  }

  /* ---------------- how many checks are made ---------------- */

  /** The passes of a log, in order. */
  function Passes(log: seq<Call>): seq<Monitor.PassResult> {
    if log == [] then []
    else if log[0].Pass? then [log[0].result] + Passes(log[1..])
    else Passes(log[1..])
  }

  lemma {:induction false} PassesJoin(a: seq<Call>, b: seq<Call>)
    ensures Passes(a + b) == Passes(a) + Passes(b)
  {
    if a == [] {
      assert a + b == b;
    } else {
      PassesJoin(a[1..], b);
      assert (a + b)[1..] == a[1..] + b;
      if a[0].Pass? {
        assert [a[0].result] + (Passes(a[1..]) + Passes(b)) == [a[0].result] + Passes(a[1..]) + Passes(b);
      }
    }
  }

  lemma {:induction false} PassesTail(log: seq<Call>, k: nat)
    requires k < |log|
    ensures Passes(log[k..]) == if log[k].Pass? then [log[k].result] + Passes(log[k + 1..]) else Passes(log[k + 1..])
  {
    assert log[k..][1..] == log[k + 1..];
  }

  /** A check makes one pass, unless the grant is gone. */
  lemma {:induction false} CheckPasses(o: Options, env: Environment, k: nat)
    ensures Passes(Check(o, env, k).0) == if env.level(k) < 3 then [] else [env.pass(k)]
  {
    var calls := Check(o, env, k).0;
    assert calls[0..] == calls;
    PassesTail(calls, 0);
    PassesTail(calls, 1);
    if 2 < |calls| {
      PassesTail(calls, 2);
    }
    if 3 < |calls| {
      PassesTail(calls, 3);
    }
  }

  /** The passes of checks from..to, in order. */
  function Results(env: Environment, from: nat, to: nat): seq<Monitor.PassResult>
    requires from <= to
  {
    seq(to - from, i requires 0 <= i < to - from => env.pass(from + i))
  }

  /** An open check adds its pass and leaves the rest to the later checks. */
  lemma {:induction false} OpenCheckPasses(o: Options, env: Environment, from: nat)
    requires from <= o.Checks() && !Settles(env, from)
    ensures Passes(Checking(o, env, from).0) == [env.pass(from)] + Passes(Checking(o, env, from + 1).0)
  {
    CheckPasses(o, env, from);
    PassesJoin(Check(o, env, from).0, Checking(o, env, from + 1).0);
  }

  lemma {:induction false} ResultsFrom(env: Environment, from: nat, to: nat)
    requires from < to
    ensures Results(env, from, to) == [env.pass(from)] + Results(env, from + 1, to)
  {
  }

  lemma {:induction false} CheckingPasses(o: Options, env: Environment, from: nat, k: nat)
    requires FirstSettled(o, env, from, k)
    ensures Passes(Checking(o, env, from).0) == Results(env, from, if env.level(k) < 3 then k else k + 1)
    decreases k - from
  {
    if from < k {
      assert !Settles(env, from);
      CheckingPasses(o, env, from + 1, k);
      OpenCheckPasses(o, env, from);
      ResultsFrom(env, from, if env.level(k) < 3 then k else k + 1);
    } else {
      CheckPasses(o, env, k);
      assert Checking(o, env, k).0 == Check(o, env, k).0;
    }
  }

  lemma {:induction false} HandOverPassesNothing()
    ensures Passes([Audit(HumanRequired(StillInconclusive))]) == []
  {
    assert [Audit(HumanRequired(StillInconclusive))][1..] == [];
  }

  lemma {:induction false} UnsettledPasses(o: Options, env: Environment, from: nat)
    requires from <= o.Checks() + 1
    requires forall k | from <= k <= o.Checks() :: !Settles(env, k)
    ensures Passes(Checking(o, env, from).0) == Results(env, from, o.Checks() + 1)
    decreases o.Checks() - from
  {
    if from <= o.Checks() {
      assert !Settles(env, from);
      UnsettledPasses(o, env, from + 1);
      OpenCheckPasses(o, env, from);
      ResultsFrom(env, from, o.Checks() + 1);
    } else {
      HandOverPassesNothing();
    }
  }

  lemma {:induction false} OpeningPassesNothing(o: Options, env: Environment)
    requires Permitted(o, env.level(0))
    ensures Passes(Guarded(o, env).0) == Passes(Checking(o, env, 1).0)
  {
    var log := Guarded(o, env).0;
    PassesJoin(log[..3], Checking(o, env, 1).0);
    PassesTail(log[..3], 0);
    PassesTail(log[..3], 1);
    PassesTail(log[..3], 2);
    assert log[..3][0..] == log[..3];
    assert log == log[..3] + Checking(o, env, 1).0;
  }

  /**
   * A permitted rollout makes one pass a check, up to the check that settles it, of which there are 20 unless
   * asked otherwise; one whose checks all leave it open makes them all and goes to a human.
   */
  lemma {:induction false} ChecksAreMade(o: Options, env: Environment, k: nat)
    requires Permitted(o, env.level(0))
    ensures var (log, outcome) := Guarded(o, env);
            var budget := if o.maxChecks.Some? then o.maxChecks.value else 20;
            && (1 <= k <= budget && Settles(env, k) && (forall j | 1 <= j < k :: !Settles(env, j)) ==>
                  Passes(log) == Results(env, 1, if env.level(k) < 3 then k else k + 1) && EndsAs(env, k, outcome))
            && ((forall j | 1 <= j <= budget :: !Settles(env, j)) ==>
                  && outcome == RequiresHuman(StillInconclusive)
                  && Passes(log) == if budget < 0 then [] else Results(env, 1, budget + 1))
  {
    OpeningPassesNothing(o, env);
    if FirstSettled(o, env, 1, k) {
      CheckingPasses(o, env, 1, k);
      FirstSettledCheckDecides(o, env, 1, k);
    }
    if forall j | 1 <= j <= o.Checks() :: !Settles(env, j) {
      UnsettledGoesToAHuman(o, env, 1);
      if 0 <= o.Checks() {
        UnsettledPasses(o, env, 1);
      } else {
        HandOverPassesNothing();
      }
    }
  }

  /* ---------------- exposure ---------------- */

  /** The shares set, in order. */
  function Shares(log: seq<Call>): seq<real> {
    if log == [] then []
    else if log[0].SetShare? then [log[0].share] + Shares(log[1..])
    else Shares(log[1..])
  }

  lemma {:induction false} SharesJoin(a: seq<Call>, b: seq<Call>)
    ensures Shares(a + b) == Shares(a) + Shares(b)
  {
    if a == [] {
      assert a + b == b;
    } else {
      SharesJoin(a[1..], b);
      assert (a + b)[1..] == a[1..] + b;
      ConsJoin(a[0], Shares(a[1..]), Shares(b));
    }
  }

  lemma {:induction false} ConsJoin(c: Call, x: seq<real>, y: seq<real>)
    ensures c.SetShare? ==> [c.share] + (x + y) == [c.share] + x + y
  {
  }

  lemma {:induction false} SharesTail(log: seq<Call>, k: nat)
    requires k < |log|
    ensures Shares(log[k..]) == if log[k].SetShare? then [log[k].share] + Shares(log[k + 1..]) else Shares(log[k + 1..])
  {
    assert log[k..][1..] == log[k + 1..];
  }

  /** The shares set by the checks, told by how they ended. */
  function FinalShares(o: Options, outcome: Outcome): seq<real> {
    match outcome
    case RequiresHuman(_) => []
    case Promoted(_) => [1.0]
    case RolledBack(_, _) => [0.0]
    case Halted(_) => if o.onHalt == Some(Freeze) then [] else [0.0]
  }

  /** The audit entry that closes a rollout with this outcome. */
  function ClosingAction(o: Options, outcome: Outcome): Action {
    match outcome
    case RequiresHuman(reason) => HumanRequired(reason)
    case Promoted(checks) => AutoPromoted(checks)
    case RolledBack(why, checks) => AutoRollback(why, checks)
    case Halted(checks) => RolloutHalted(if o.onHalt == Some(Freeze) then Freeze else Rollback, checks)
  }

  predicate ClosesWith(o: Options, log: seq<Call>, outcome: Outcome) {
    0 < |log| && log[|log| - 1] == Audit(ClosingAction(o, outcome))
  }

  lemma {:induction false} CheckShares(o: Options, env: Environment, k: nat)
    ensures var (calls, outcome) := Check(o, env, k);
            && Shares(calls) == (if outcome.Some? then FinalShares(o, outcome.value) else [])
            && (outcome.Some? ==> ClosesWith(o, calls, outcome.value))
  {
    var calls := Check(o, env, k).0;
    assert calls[0..] == calls;
    SharesTail(calls, 0);
    SharesTail(calls, 1);
    if 2 < |calls| {
      SharesTail(calls, 2);
    }
    if 3 < |calls| {
      SharesTail(calls, 3);
    }
  }

  lemma {:induction false} CheckingShares(o: Options, env: Environment, k: nat)
    ensures var (calls, outcome) := Checking(o, env, k);
            Shares(calls) == FinalShares(o, outcome) && ClosesWith(o, calls, outcome)
    decreases o.Checks() - k
  {
    if k <= o.Checks() {
      CheckShares(o, env, k);
      if Check(o, env, k).1.None? {
        CheckingShares(o, env, k + 1);
        SharesJoin(Check(o, env, k).0, Checking(o, env, k + 1).0);
      }
    }
  }

  /**
   * For any grants and verdicts, the shares ever set are none, the canary alone, or the canary followed
   * by one of 0 and 1; the last one and the last audit entry both tell the outcome.
   */
  lemma {:induction false} ExposureExactly(o: Options, env: Environment)
    ensures var (log, outcome) := Guarded(o, env);
            && Shares(log) == (if !Permitted(o, env.level(0)) then [] else [o.Canary()] + FinalShares(o, outcome))
            && o.Canary() <= o.policy.maxTrafficShare
            && ClosesWith(o, log, outcome)
  {
    var log := Guarded(o, env).0;
    if Refusal(o, env.level(0)).None? {
      CheckingShares(o, env, 1);
      SharesJoin(log[..3], Checking(o, env, 1).0);
      SharesTail(log[..3], 0);
      SharesTail(log[..3], 1);
      SharesTail(log[..3], 2);
      assert log[..3][0..] == log[..3];
      assert log == log[..3] + Checking(o, env, 1).0;
    } else {
      SharesTail(log, 0);
      SharesTail(log, 1);
      assert log[0..] == log;
    }
  }

  /** The share set at place i of the log follows a read of the grant and a pass that ships, in one check. */
  predicate EarnedInCheck(env: Environment, log: seq<Call>, i: nat, k: nat)
    requires i < |log|
  {
    && 2 <= i
    && log[i] == SetShare(1.0)
    && log[i - 1] == Pass(Monitor.Concluded(Sequential.Ship)) && env.pass(k) == Monitor.Concluded(Sequential.Ship)
    && log[i - 2] == ReadLevel(env.level(k)) && AUTONOMY <= env.level(k)
  }

  ghost predicate EveryRiseIsEarned(env: Environment, cap: real, log: seq<Call>) {
    forall i | 0 <= i < |log| && log[i].SetShare? && cap < log[i].share ::
      exists k: nat :: EarnedInCheck(env, log, i, k)
  }

  lemma {:induction false} EarnedJoin(env: Environment, cap: real, a: seq<Call>, b: seq<Call>)
    requires EveryRiseIsEarned(env, cap, a) && EveryRiseIsEarned(env, cap, b)
    ensures EveryRiseIsEarned(env, cap, a + b)
  {
    var log := a + b;
    forall i | 0 <= i < |log| && log[i].SetShare? && cap < log[i].share
      ensures exists k: nat :: EarnedInCheck(env, log, i, k)
    {
      if i < |a| {
        var k: nat :| EarnedInCheck(env, a, i, k);
        assert EarnedInCheck(env, log, i, k);
      } else {
        var k: nat :| EarnedInCheck(env, b, i - |a|, k);
        assert EarnedInCheck(env, log, i, k);
      }
    }
  }

  lemma {:induction false} CheckEarns(o: Options, env: Environment, cap: real, k: nat)
    requires 0.0 <= cap
    ensures EveryRiseIsEarned(env, cap, Check(o, env, k).0)
  {
    var log := Check(o, env, k).0;
    forall i | 0 <= i < |log| && log[i].SetShare? && cap < log[i].share
      ensures exists j: nat :: EarnedInCheck(env, log, i, j)
    {
      assert EarnedInCheck(env, log, i, k);
    }
  }

  lemma {:induction false} CheckingEarns(o: Options, env: Environment, cap: real, k: nat)
    requires 0.0 <= cap
    ensures EveryRiseIsEarned(env, cap, Checking(o, env, k).0)
    decreases o.Checks() - k
  {
    if k <= o.Checks() {
      CheckEarns(o, env, cap, k);
      if Check(o, env, k).1.None? {
        CheckingEarns(o, env, cap, k + 1);
        EarnedJoin(env, cap, Check(o, env, k).0, Checking(o, env, k + 1).0);
      }
    }
  }

  /**
   * Only promotion exceeds the cap. The claim is about each place of the log, so it also holds of a
   * rollout that a failing call cuts short anywhere.
   */
  lemma {:induction false} OnlyPromotionExceedsTheCap(o: Options, env: Environment, n: nat)
    requires 0.0 <= o.policy.maxTrafficShare
    requires n <= |Guarded(o, env).0|
    ensures EveryRiseIsEarned(env, o.policy.maxTrafficShare, Guarded(o, env).0[..n])
  {
    var (log, cap) := (Guarded(o, env).0, o.policy.maxTrafficShare);
    if Refusal(o, env.level(0)).None? {
      CheckingEarns(o, env, cap, 1);
      EarnedJoin(env, cap, log[..3], Checking(o, env, 1).0);
      assert log == log[..3] + Checking(o, env, 1).0;
    }
    forall i | 0 <= i < n && log[i].SetShare? && cap < log[i].share
      ensures exists k: nat :: EarnedInCheck(env, log[..n], i, k)
    {
      var k: nat :| EarnedInCheck(env, log, i, k);
      assert EarnedInCheck(env, log[..n], i, k);
    }
  }

  /** The passes are monitoring passes over whatever had been observed by then. */
  ghost predicate Monitored(m: Sequential.Maths, env: Environment, observed: nat -> Monitor.Setup) {
    forall k: nat :: env.pass(k) == Monitor.Verdicts(m, observed(k)).0
  }

  /** What entitles a rollout to full exposure at check k. */
  ghost predicate Deserves(m: Sequential.Maths, env: Environment, observed: nat -> Monitor.Setup, k: nat) {
    && 3 <= env.level(k)
    && !Monitor.AnyHarmed(m, observed(k).guardrails)
    && Monitor.Lies(Monitor.SequenceOf(m, observed(k).target).interval, observed(k).direction)
  }

  /** A promotion was deserved in the very check that made it, and no earlier check had anything to say. */
  lemma {:induction false} PromotionIsDeserved(m: Sequential.Maths, o: Options, env: Environment,
                                               observed: nat -> Monitor.Setup)
    requires Sequential.Lawful(m) && Monitored(m, env, observed)
    requires Guarded(o, env).1.Promoted?
    ensures var k := Guarded(o, env).1.checks;
            FirstSettled(o, env, 1, k) && Deserves(m, env, observed, k)
  {
    var k := SettledOrNot(o, env, 1);
    FirstSettledCheckDecides(o, env, 1, k);
    Monitor.VerdictExactly(m, observed(k));
  }

  /** The first settled check, if there is one. */
  lemma {:induction false} SettledOrNot(o: Options, env: Environment, from: nat) returns (k: nat)
    requires Checking(o, env, from).1 != RequiresHuman(StillInconclusive)
    ensures FirstSettled(o, env, from, k)
    decreases o.Checks() - from
  {
    if Settles(env, from) {
      k := from;
    } else {
      k := SettledOrNot(o, env, from + 1);
    }
  }

  /** What deserves promotion first is promoted: the guard rails never hold back a valid win. */
  lemma {:induction false} DeservedIsPromoted(m: Sequential.Maths, o: Options, env: Environment,
                                              observed: nat -> Monitor.Setup, k: nat)
    requires Sequential.Lawful(m) && Monitored(m, env, observed)
    requires Permitted(o, env.level(0)) && FirstSettled(o, env, 1, k) && Deserves(m, env, observed, k)
    ensures Guarded(o, env).1 == Promoted(k)
  {
    FirstSettledCheckDecides(o, env, 1, k);
    Monitor.VerdictExactly(m, observed(k));
  }
}
