/**
 * The tenant registry and its audit trail (packages/registry-service/src/store.ts). One tenant's
 * slice; each transaction is one atomic step.
 */
module Registry {
  import opened Wrappers

  datatype Status = Proposed | Active | Deprecated

  datatype Entry = Entry(
    event: string,
    description: string,
    journey: string,
    ownerMetric: string,
    hypothesis: Option<string>,
    status: Status,
    sinceVersion: string)

  /** registryEntrySchema: every text present is non-empty. */
  predicate ValidEntry(e: Entry) {
    && e.event != "" && e.description != "" && e.journey != "" && e.ownerMetric != ""
    && (e.hypothesis.Some? ==> e.hypothesis.value != "")
    && e.sinceVersion != ""
  }

  datatype Planned = Planned(entry: Entry, codeLocations: seq<string>, notes: string)

  datatype Removal = Removal(event: string, reason: string)

  datatype Plan = Plan(
    repo: string,
    summary: string,
    added: seq<Planned>,
    modified: seq<Planned>,
    removed: seq<Removal>)

  predicate ValidPlanned(p: Planned) {
    && ValidEntry(p.entry)
    && p.codeLocations != [] && (forall l <- p.codeLocations :: l != "")
    && p.notes != ""
  }

  /** trackingPlanSchema. */
  predicate ValidPlan(plan: Plan) {
    && plan.repo != "" && plan.summary != ""
    && (forall p <- plan.added :: ValidPlanned(p))
    && (forall p <- plan.modified :: ValidPlanned(p))
    && (forall r <- plan.removed :: r.event != "" && r.reason != "")
  }

  datatype Operation = Seed | Put | Add | Modify | Remove | Other

  datatype AuditRecord = AuditRecord(
    actor: string,
    operation: Operation,
    event: string,
    before: Option<Entry>,
    after: Option<Entry>)

  datatype Failure = ValidationError | StaleFingerprint | AlreadyExists(event: string) | DoesNotExist(event: string)

  datatype Tenant = Tenant(registry: map<string, Entry>, log: seq<AuditRecord>)

  type Outcome = Result<Tenant, Failure>

  function Lookup(registry: map<string, Entry>, event: string): Option<Entry> {
    if event in registry then Some(registry[event]) else None
  }

  /** writeEntry and audit, always together. */
  function Write(t: Tenant, actor: string, op: Operation, before: Option<Entry>, entry: Entry): Tenant {
    Tenant(t.registry[entry.event := entry], t.log + [AuditRecord(actor, op, entry.event, before, Some(entry))])
  }

  /** The texts a schema asks for: none may be empty, and a missing hypothesis is not there to be. */
  function TextsOf(e: Entry): seq<string> {
    [e.event, e.description, e.journey, e.ownerMetric, e.sinceVersion]
    + if e.hypothesis.Some? then [e.hypothesis.value] else []
  }

  lemma {:induction false} EntryIsValidExactly(e: Entry)
    ensures ValidEntry(e) <==> "" !in TextsOf(e)
  {
  }

  lemma {:induction false} PlanIsValidExactly(plan: Plan)
    ensures ValidPlan(plan)
       <==> && "" !in [plan.repo, plan.summary]
            && (forall p | p in plan.added || p in plan.modified ::
                  "" !in TextsOf(p.entry) + p.codeLocations + [p.notes] && p.codeLocations != [])
            && (forall r | r in plan.removed :: "" !in [r.event, r.reason])
  {
    forall p: Planned
      ensures ValidPlanned(p) <==> "" !in TextsOf(p.entry) + p.codeLocations + [p.notes] && p.codeLocations != []
    {
      EntryIsValidExactly(p.entry);
    }
  }

  /* ---------------- transactions ---------------- */

  const TAXONOMY_VERSION := "0.1.0"

  function CoreEvent(event: string, description: string, ownerMetric: string): Entry {
    Entry(event, description, "toqar_core", ownerMetric, None, Active, TAXONOMY_VERSION)
  }

  /** The registry every new tenant starts with, the descriptions cut short. */
  function DefaultTaxonomy(): seq<Entry> {
    [ CoreEvent("task_started", "began", "task_success_rate"),
      CoreEvent("task_completed", "success", "task_success_rate"),
      CoreEvent("task_failed", "failure", "task_success_rate"),
      CoreEvent("task_abandoned", "no outcome", "abandonment_rate"),
      CoreEvent("step_executed", "one step", "cost_per_completed_task"),
      CoreEvent("handoff_to_human", "asked", "escalation_rate"),
      CoreEvent("human_approved", "approved", "approval_friction"),
      CoreEvent("human_edited", "edited", "human_edit_distance"),
      CoreEvent("human_overrode", "took over", "override_rate"),
      CoreEvent("feedback_given", "rated", "complaint_rate") ]
  }

  function Seeded(entries: seq<Entry>): Tenant {
    if entries == [] then Tenant(map[], [])
    else Write(Seeded(entries[..|entries| - 1]), "system", Seed, None, entries[|entries| - 1])
  }

  function PutEntry(t: Tenant, value: Option<Entry>, actor: string): Outcome {
    if value.Some? && ValidEntry(value.value) then
      Ok(Write(t, actor, Put, Lookup(t.registry, value.value.event), value.value))
    else Err(ValidationError)
  }

  /** One line of a plan, in the order applyPlan takes them: added, modified, removed. */
  datatype Change = Adding(planned: Planned) | Modifying(planned: Planned) | Removing(removal: Removal) {
    function Event(): string {
      if Removing? then removal.event else planned.entry.event
    }
  }

  function Adds(ps: seq<Planned>): seq<Change> {
    seq(|ps|, i requires 0 <= i < |ps| => Adding(ps[i]))
  }

  function Modifies(ps: seq<Planned>): seq<Change> {
    seq(|ps|, i requires 0 <= i < |ps| => Modifying(ps[i]))
  }

  function Removes(rs: seq<Removal>): seq<Change> {
    seq(|rs|, i requires 0 <= i < |rs| => Removing(rs[i]))
  }

  function ChangesOf(plan: Plan): seq<Change> {
    Adds(plan.added) + Modifies(plan.modified) + Removes(plan.removed)
  }

  /** `removed` never deletes: the entry becomes deprecated. */
  function ApplyOne(t: Tenant, c: Change, actor: string): Outcome {
    match c
    case Adding(p) =>
      if p.entry.event in t.registry then Err(AlreadyExists(p.entry.event))
      else Ok(Write(t, actor, Add, None, p.entry))
    case Modifying(p) =>
      if p.entry.event !in t.registry then Err(DoesNotExist(p.entry.event))
      else Ok(Write(t, actor, Modify, Some(t.registry[p.entry.event]), p.entry))
    case Removing(r) =>
      if r.event !in t.registry then Err(DoesNotExist(r.event))
      else
        var before := t.registry[r.event];
        var after := before.(status := Deprecated);
        Ok(Tenant(t.registry[r.event := after],
                  t.log + [AuditRecord(actor, Remove, r.event, Some(before), Some(after))]))
  }

  function ApplyAll(t: Tenant, cs: seq<Change>, actor: string): Outcome {
    if cs == [] then Ok(t)
    else
      var rest := ApplyAll(t, cs[..|cs| - 1], actor);
      if rest.Err? then rest else ApplyOne(rest.value, cs[|cs| - 1], actor)
  }

  /** applyPlan. The fingerprint, a hash of the ordered entries, is modelled by the entries. */
  function ApplyPlan(t: Tenant, plan: Plan, fingerprint: map<string, Entry>, actor: string): Outcome {
    if !ValidPlan(plan) then Err(ValidationError)
    else if fingerprint != t.registry then Err(StaleFingerprint)
    else ApplyAll(t, ChangesOf(plan), actor)
  }

  /* ---------------- whole runs ---------------- */

  datatype Request =
    | RPut(value: Option<Entry>, actor: string)
    | RApply(plan: Plan, fingerprint: map<string, Entry>, actor: string)
    | ROther(actor: string, subject: string)  // seam maps, runs, findings, tokens, experiments, ...

  /** A rejected transaction is rolled back. */
  function Handle(t: Tenant, r: Request): Tenant {
    match r
    case RPut(value, actor) =>
      var out := PutEntry(t, value, actor);
      if out.Ok? then out.value else t
    case RApply(plan, fingerprint, actor) =>
      var out := ApplyPlan(t, plan, fingerprint, actor);
      if out.Ok? then out.value else t
    case ROther(actor, subject) => t.(log := t.log + [AuditRecord(actor, Other, subject, None, None)])
  }

  function ServeFrom(t: Tenant, rs: seq<Request>): Tenant {
    if rs == [] then t else Handle(ServeFrom(t, rs[..|rs| - 1]), rs[|rs| - 1])
  }

  function Serve(rs: seq<Request>): Tenant {
    ServeFrom(Seeded(DefaultTaxonomy()), rs)
  }

  /** Replays the registry operations of an audit log from the empty registry. */
  function Replay(log: seq<AuditRecord>): map<string, Entry> {
    if log == [] then map[]
    else
      var rest, last := Replay(log[..|log| - 1]), log[|log| - 1];
      if last.after.Some? && !last.operation.Other? then rest[last.event := last.after.value] else rest
  }

  /** The record says what was there before it, and files its entry under its own event. */
  predicate Truthful(before: map<string, Entry>, r: AuditRecord) {
    r.operation.Other? ||
    (r.before == Lookup(before, r.event) && r.after.Some? && r.after.value.event == r.event)
  }

  ghost predicate WellAudited(t: Tenant) {
    && t.registry == Replay(t.log)
    && (forall i | 0 <= i < |t.log| :: Truthful(Replay(t.log[..i]), t.log[i]))
    && (forall e <- t.registry :: t.registry[e].event == e)
  }

  lemma {:induction false} TruthfulOneMore(log: seq<AuditRecord>, r: AuditRecord, i: nat)
    requires forall k | 0 <= k < |log| :: Truthful(Replay(log[..k]), log[k])
    requires Truthful(Replay(log), r) && i <= |log|
    ensures Truthful(Replay((log + [r])[..i]), (log + [r])[i])
  {
    assert (log + [r])[..i] == log[..i];
    assert log[..|log|] == log;
  }

  lemma {:induction false} RecordKeepsAudit(t: Tenant, t': Tenant, r: AuditRecord)
    requires WellAudited(t)
    requires t'.log == t.log + [r] && !r.operation.Other? && Truthful(t.registry, r)
    requires t'.registry == t.registry[r.event := r.after.value]
    ensures WellAudited(t')
  {
    assert t'.log[..|t.log|] == t.log;
    forall i | 0 <= i < |t'.log|
      ensures Truthful(Replay(t'.log[..i]), t'.log[i])
    {
      TruthfulOneMore(t.log, r, i);
    }
  }

  lemma {:induction false} WriteKeepsAudit(t: Tenant, actor: string, op: Operation, entry: Entry)
    requires WellAudited(t) && !op.Other?
    ensures WellAudited(Write(t, actor, op, Lookup(t.registry, entry.event), entry))
  {
    RecordKeepsAudit(t, Write(t, actor, op, Lookup(t.registry, entry.event), entry),
                     AuditRecord(actor, op, entry.event, Lookup(t.registry, entry.event), Some(entry)));
  }

  /** What a successful batch of writes keeps. */
  ghost predicate Extends(t: Tenant, t': Tenant) {
    && WellAudited(t')
    && t.registry.Keys <= t'.registry.Keys
    && t.log <= t'.log
  }

  lemma {:induction false} ApplyOneExtends(t: Tenant, c: Change, actor: string)
    requires WellAudited(t)
    ensures ApplyOne(t, c, actor).Ok? ==> Extends(t, ApplyOne(t, c, actor).value)
  {
    match c
    case Adding(p) => WriteKeepsAudit(t, actor, Add, p.entry);
    case Modifying(p) => WriteKeepsAudit(t, actor, Modify, p.entry);
    case Removing(r) =>
      if r.event in t.registry {
        var before := t.registry[r.event];
        RecordKeepsAudit(t, ApplyOne(t, c, actor).value,
                         AuditRecord(actor, Remove, r.event, Some(before), Some(before.(status := Deprecated))));
      }
  }

  lemma {:induction false} ExtendsTransitive(a: Tenant, b: Tenant, c: Tenant)
    requires Extends(a, b) && Extends(b, c)
    ensures Extends(a, c)
  {
  }

  lemma {:induction false} ApplyAllExtends(t: Tenant, cs: seq<Change>, actor: string)
    requires WellAudited(t)
    ensures ApplyAll(t, cs, actor).Ok? ==> Extends(t, ApplyAll(t, cs, actor).value)
  {
    if cs != [] {
      var rest := ApplyAll(t, cs[..|cs| - 1], actor);
      ApplyAllExtends(t, cs[..|cs| - 1], actor);
      if rest.Ok? {
        var last := ApplyOne(rest.value, cs[|cs| - 1], actor);
        ApplyOneExtends(rest.value, cs[|cs| - 1], actor);
        if last.Ok? {
          ExtendsTransitive(t, rest.value, last.value);
        }
      }
    }
  }

  lemma {:induction false} OtherExtends(t: Tenant, r: AuditRecord)
    requires WellAudited(t) && r.operation.Other?
    ensures Extends(t, t.(log := t.log + [r]))
  {
    var log := t.log + [r];
    assert log[..|t.log|] == t.log;
    forall i | 0 <= i < |log|
      ensures Truthful(Replay(log[..i]), log[i])
    {
      TruthfulOneMore(t.log, r, i);
    }
  }

  lemma {:induction false} HandleExtends(t: Tenant, r: Request)
    requires WellAudited(t)
    ensures Extends(t, Handle(t, r))
  {
    match r
    case RPut(value, actor) =>
      if value.Some? { WriteKeepsAudit(t, actor, Put, value.value); }
    case RApply(plan, fingerprint, actor) =>
      ApplyAllExtends(t, ChangesOf(plan), actor);
    case ROther(actor, subject) =>
      OtherExtends(t, AuditRecord(actor, Other, subject, None, None));
  }

  /** Who did what besides changing the registry, in order. */
  function OtherActions(log: seq<AuditRecord>): seq<(string, string)> {
    if log == [] then []
    else
      var rest, last := OtherActions(log[..|log| - 1]), log[|log| - 1];
      if last.operation.Other? then rest + [(last.actor, last.event)] else rest
  }

  function OtherRequests(rs: seq<Request>): seq<(string, string)> {
    if rs == [] then []
    else
      var rest, last := OtherRequests(rs[..|rs| - 1]), rs[|rs| - 1];
      if last.ROther? then rest + [(last.actor, last.subject)] else rest
  }

  lemma {:induction false} OtherOneMore(log: seq<AuditRecord>, r: AuditRecord)
    ensures OtherActions(log + [r])
         == if r.operation.Other? then OtherActions(log) + [(r.actor, r.event)] else OtherActions(log)
  {
    assert (log + [r])[..|log|] == log;
  }

  lemma {:induction false} LinesAreNoOthers(t: Tenant, cs: seq<Change>, actor: string)
    ensures var out := ApplyAll(t, cs, actor); out.Ok? ==> OtherActions(out.value.log) == OtherActions(t.log)
  {
    if cs != [] && ApplyAll(t, cs, actor).Ok? {
      var rest, out := ApplyAll(t, cs[..|cs| - 1], actor).value, ApplyAll(t, cs, actor).value;
      LinesAreNoOthers(t, cs[..|cs| - 1], actor);
      OtherOneMore(rest.log, out.log[|rest.log|]);
    }
  }

  lemma {:induction false} SeededHasNoOthers(entries: seq<Entry>)
    ensures OtherActions(Seeded(entries).log) == []
  {
    if entries != [] {
      var n := |entries| - 1;
      SeededHasNoOthers(entries[..n]);
      OtherOneMore(Seeded(entries[..n]).log, Seeded(entries).log[|Seeded(entries[..n]).log|]);
    }
  }

  /** Every other action of the run is on record under its actor, once and in order, and no action is made up. */
  lemma {:induction false} OthersAreLogged(rs: seq<Request>)
    ensures OtherActions(Serve(rs).log) == OtherRequests(rs)
  {
    if rs == [] {
      SeededHasNoOthers(DefaultTaxonomy());
    } else {
      var n := |rs| - 1;
      var t, t' := Serve(rs[..n]), Serve(rs);
      OthersAreLogged(rs[..n]);
      match rs[n]
      case RPut(value, actor) =>
        if value.Some? && |t.log| < |t'.log| { OtherOneMore(t.log, t'.log[|t.log|]); }
      case RApply(plan, fingerprint, actor) => LinesAreNoOthers(t, ChangesOf(plan), actor);
      case ROther(actor, subject) => OtherOneMore(t.log, AuditRecord(actor, Other, subject, None, None));
    }
  }

  predicate DistinctEvents(entries: seq<Entry>) {
    forall i, j | 0 <= i < j < |entries| :: entries[i].event != entries[j].event
  }

  lemma {:induction false} SeededKeys(entries: seq<Entry>)
    ensures Seeded(entries).registry.Keys == set e | e in entries :: e.event
  {
    if entries != [] {
      var n := |entries| - 1;
      SeededKeys(entries[..n]);
      assert entries == entries[..n] + [entries[n]];
    }
  }

  lemma {:induction false} SeededIsWellAudited(entries: seq<Entry>)
    requires DistinctEvents(entries)
    ensures WellAudited(Seeded(entries))
  {
    if entries != [] {
      var init, last := entries[..|entries| - 1], entries[|entries| - 1];
      SeededIsWellAudited(init);
      SeededKeys(init);
      assert last.event !in Seeded(init).registry;
      WriteKeepsAudit(Seeded(init), "system", Seed, last);
    }
  }

  /** A new tenant starts with core entries only, all active since the first version. */
  predicate IsCore(e: Entry) {
    e.status == Active && e.sinceVersion == "0.1.0" && e.journey == "toqar_core" && e.hypothesis == None
  }

  lemma {:induction false} NewTenantHasCoreEvents()
    ensures forall k <- Seeded(DefaultTaxonomy()).registry :: IsCore(Seeded(DefaultTaxonomy()).registry[k])
  {
    var entries := DefaultTaxonomy();
    assert forall e <- entries :: IsCore(e);
    SeededEntries(entries);
  }

  lemma {:induction false} SeededEntries(entries: seq<Entry>)
    ensures forall k <- Seeded(entries).registry :: Seeded(entries).registry[k] in entries
  {
    if entries != [] {
      SeededEntries(entries[..|entries| - 1]);
    }
  }

  lemma {:induction false} TaxonomyIsDistinct()
    ensures DistinctEvents(DefaultTaxonomy())
  {
  }

  /**
   * The audit trail rebuilds the registry: in every reachable state replaying the log from the
   * empty registry gives the registry, and every record's `before` is what that replay had there.
   */
  lemma {:induction false} AuditRebuildsRegistry(rs: seq<Request>)
    ensures WellAudited(Serve(rs))
  {
    TaxonomyIsDistinct();
    SeededIsWellAudited(DefaultTaxonomy());
    ServedIsWellAudited(Seeded(DefaultTaxonomy()), rs);
  }

  lemma {:induction false} ServedIsWellAudited(t: Tenant, rs: seq<Request>)
    requires WellAudited(t)
    ensures WellAudited(ServeFrom(t, rs))
  {
    if rs != [] {
      ServedIsWellAudited(t, rs[..|rs| - 1]);
      HandleExtends(ServeFrom(t, rs[..|rs| - 1]), rs[|rs| - 1]);
    }
  }

  /** No event ever disappears, and the log is append-only, between any two moments of a run. */
  lemma {:induction false} NothingIsEverForgotten(rs: seq<Request>, i: nat)
    requires i <= |rs|
    ensures Serve(rs[..i]).registry.Keys <= Serve(rs).registry.Keys
    ensures Serve(rs[..i]).log <= Serve(rs).log
  {
    AuditRebuildsRegistry([]);
    NothingForgottenFrom(Seeded(DefaultTaxonomy()), rs, i);
  }

  lemma {:induction false} NothingForgottenFrom(t: Tenant, rs: seq<Request>, i: nat)
    requires WellAudited(t) && i <= |rs|
    ensures ServeFrom(t, rs[..i]).registry.Keys <= ServeFrom(t, rs).registry.Keys
    ensures ServeFrom(t, rs[..i]).log <= ServeFrom(t, rs).log
  {
    if i == |rs| {
      assert rs[..i] == rs;
    } else {
      var init := rs[..|rs| - 1];
      assert init[..i] == rs[..i];
      NothingForgottenFrom(t, init, i);
      ServedIsWellAudited(t, init);
      HandleExtends(ServeFrom(t, init), rs[|rs| - 1]);
    }
  }

  predicate EntriesValid(registry: map<string, Entry>) {
    forall k <- registry :: ValidEntry(registry[k])
  }

  lemma {:induction false} ApplyAllKeepsValid(t: Tenant, cs: seq<Change>, actor: string)
    requires EntriesValid(t.registry)
    requires forall i | 0 <= i < |cs| && !cs[i].Removing? :: ValidEntry(cs[i].planned.entry)
    ensures ApplyAll(t, cs, actor).Ok? ==> EntriesValid(ApplyAll(t, cs, actor).value.registry)
  {
    if cs != [] {
      ApplyAllKeepsValid(t, cs[..|cs| - 1], actor);
      assert cs[|cs| - 1].Removing? || ValidEntry(cs[|cs| - 1].planned.entry);
    }
  }

  lemma {:induction false} SeededKeepsValid(entries: seq<Entry>)
    requires forall i | 0 <= i < |entries| :: ValidEntry(entries[i])
    ensures EntriesValid(Seeded(entries).registry)
  {
    if entries != [] {
      SeededKeepsValid(entries[..|entries| - 1]);
    }
  }

  /** Only entries that pass the schema are ever stored. */
  lemma {:induction false} ServedEntriesAreValid(rs: seq<Request>)
    ensures EntriesValid(Serve(rs).registry)
  {
    SeededKeepsValid(DefaultTaxonomy());
    ServedStayValid(Seeded(DefaultTaxonomy()), rs);
  }

  lemma {:induction false} ServedStayValid(t: Tenant, rs: seq<Request>)
    requires EntriesValid(t.registry)
    ensures EntriesValid(ServeFrom(t, rs).registry)
  {
    if rs != [] {
      var init, last := ServeFrom(t, rs[..|rs| - 1]), rs[|rs| - 1];
      ServedStayValid(t, rs[..|rs| - 1]);
      if last.RApply? && ValidPlan(last.plan) {
        var cs := ChangesOf(last.plan);
        forall i | 0 <= i < |cs| && !cs[i].Removing? ensures ValidEntry(cs[i].planned.entry) {
          assert cs[i].planned in last.plan.added || cs[i].planned in last.plan.modified;
        }
        ApplyAllKeepsValid(init, cs, last.actor);
      }
    }
  }

  /* ---------------- what a plan does to the registry ---------------- */

  predicate DistinctChanges(cs: seq<Change>) {
    forall i, j | 0 <= i < j < |cs| :: cs[i].Event() != cs[j].Event()
  }

  predicate Applicable(registry: map<string, Entry>, c: Change) {
    c.Event() in registry <==> !c.Adding?
  }

  function Target(registry: map<string, Entry>, c: Change): Entry
    requires Applicable(registry, c)
  {
    if c.Removing? then registry[c.Event()].(status := Deprecated) else c.planned.entry
  }

  lemma {:induction false} ApplyOneSets(t: Tenant, c: Change, actor: string)
    requires Applicable(t.registry, c)
    ensures ApplyOne(t, c, actor).Ok?
    ensures ApplyOne(t, c, actor).value.registry == t.registry[c.Event() := Target(t.registry, c)]
  {
  }

  /** Changes to distinct events that each fit the registry apply together, and touch nothing else. */
  lemma {:induction false} DistinctChangesApply(t: Tenant, cs: seq<Change>, actor: string)
    requires DistinctChanges(cs)
    requires forall i | 0 <= i < |cs| :: Applicable(t.registry, cs[i])
    ensures ApplyAll(t, cs, actor).Ok?
    ensures forall i | 0 <= i < |cs| ::
              Lookup(ApplyAll(t, cs, actor).value.registry, cs[i].Event()) == Some(Target(t.registry, cs[i]))
    ensures forall e | forall i | 0 <= i < |cs| :: cs[i].Event() != e ::
              Lookup(ApplyAll(t, cs, actor).value.registry, e) == Lookup(t.registry, e)
  {
    if cs != [] {
      var n := |cs| - 1;
      var init, last := cs[..n], cs[n];
      DistinctChangesApply(t, init, actor);
      var rest := ApplyAll(t, init, actor).value;
      assert Lookup(rest.registry, last.Event()) == Lookup(t.registry, last.Event()) by {
        assert forall i | 0 <= i < n :: init[i].Event() != last.Event();
      }
      assert Applicable(t.registry, cs[n]);
      assert Applicable(rest.registry, last) && Target(rest.registry, last) == Target(t.registry, last);
      ApplyOneSets(rest, last, actor);
      var out := ApplyAll(t, cs, actor).value;
      assert out.registry == rest.registry[last.Event() := Target(t.registry, last)];
      forall i | 0 <= i < |cs|
        ensures Lookup(out.registry, cs[i].Event()) == Some(Target(t.registry, cs[i]))
      {
        if i < n {
          assert init[i] == cs[i];
        }
      }
      forall e | forall i | 0 <= i < |cs| :: cs[i].Event() != e
        ensures Lookup(out.registry, e) == Lookup(t.registry, e)
      {
        assert cs[n].Event() != e;
        assert forall i | 0 <= i < n :: init[i].Event() != e;
      }
    }
  }

  /* ---------------- which plans apply ---------------- */

  /** The event is there when line i comes: in the registry, or added by an earlier line. */
  predicate Present(registry: map<string, Entry>, cs: seq<Change>, i: nat)
    requires i < |cs|
  {
    cs[i].Event() in registry || exists j | 0 <= j < i :: cs[j].Adding? && cs[j].Event() == cs[i].Event()
  }

  /** An added event must not be there yet; a modified or removed one must. */
  predicate Fits(registry: map<string, Entry>, cs: seq<Change>, i: nat)
    requires i < |cs|
  {
    Present(registry, cs, i) <==> !cs[i].Adding?
  }

  ghost predicate AllFit(registry: map<string, Entry>, cs: seq<Change>) {
    forall i | 0 <= i < |cs| :: Fits(registry, cs, i)
  }

  /** A conflict names the first line that does not fit. */
  ghost predicate Conflicts(registry: map<string, Entry>, cs: seq<Change>, failure: Failure) {
    exists i :: 0 <= i < |cs| && !Fits(registry, cs, i) && (forall j | 0 <= j < i :: Fits(registry, cs, j))
                && failure == (if cs[i].Adding? then AlreadyExists(cs[i].Event()) else DoesNotExist(cs[i].Event()))
  }

  lemma {:induction false} FrontFits(registry: map<string, Entry>, cs: seq<Change>, n: nat)
    requires n <= |cs|
    ensures forall i | 0 <= i < n :: Fits(registry, cs[..n], i) == Fits(registry, cs, i)
  {
    forall i | 0 <= i < n
      ensures Fits(registry, cs[..n], i) == Fits(registry, cs, i)
    {
      assert cs[..n][i] == cs[i];
      assert forall j | 0 <= j < i :: cs[..n][j] == cs[j];
    }
  }

  /** The keys after the lines: those before and those added. */
  lemma {:induction false} AppliedKeys(t: Tenant, cs: seq<Change>, actor: string)
    requires ApplyAll(t, cs, actor).Ok?
    ensures forall e :: e in ApplyAll(t, cs, actor).value.registry
              <==> e in t.registry || exists j | 0 <= j < |cs| :: cs[j].Adding? && cs[j].Event() == e
  {
    if cs != [] {
      var n := |cs| - 1;
      AppliedKeys(t, cs[..n], actor);
      assert forall j | 0 <= j < n :: cs[..n][j] == cs[j];
      var rest := ApplyAll(t, cs[..n], actor).value;
      forall e
        ensures e in ApplyAll(t, cs, actor).value.registry
           <==> e in rest.registry || (cs[n].Adding? && cs[n].Event() == e)
      {
      }
    }
  }

  lemma {:induction false} ConflictStays(registry: map<string, Entry>, cs: seq<Change>, n: nat, failure: Failure)
    requires n <= |cs| && Conflicts(registry, cs[..n], failure)
    ensures Conflicts(registry, cs, failure)
  {
    FrontFits(registry, cs, n);
    var i :| 0 <= i < n && !Fits(registry, cs[..n], i) && (forall j | 0 <= j < i :: Fits(registry, cs[..n], j))
             && failure == (if cs[..n][i].Adding? then AlreadyExists(cs[..n][i].Event())
                            else DoesNotExist(cs[..n][i].Event()));
    assert cs[..n][i] == cs[i];
  }

  lemma {:induction false} LastLine(t: Tenant, cs: seq<Change>, actor: string)
    requires cs != [] && ApplyAll(t, cs[..|cs| - 1], actor).Ok?
    ensures ApplyAll(t, cs, actor).Ok? <==> Fits(t.registry, cs, |cs| - 1)
    ensures ApplyAll(t, cs, actor).Err? ==>
              var (last, failure) := (cs[|cs| - 1], ApplyAll(t, cs, actor).error);
              failure == if last.Adding? then AlreadyExists(last.Event()) else DoesNotExist(last.Event())
  {
    var n := |cs| - 1;
    AppliedKeys(t, cs[..n], actor);
    assert forall j | 0 <= j < n :: cs[..n][j] == cs[j];
    var rest := ApplyAll(t, cs[..n], actor).value;
    assert cs[n].Event() in rest.registry <==> Present(t.registry, cs, n);
  }

  /** The lines apply exactly if each fits when it comes; if not, the first misfit is the conflict. */
  lemma {:induction false} LinesApplyExactly(t: Tenant, cs: seq<Change>, actor: string)
    ensures ApplyAll(t, cs, actor).Ok? <==> AllFit(t.registry, cs)
    ensures ApplyAll(t, cs, actor).Err? ==> Conflicts(t.registry, cs, ApplyAll(t, cs, actor).error)
  {
    if cs != [] {
      var n := |cs| - 1;
      LinesApplyExactly(t, cs[..n], actor);
      FrontFits(t.registry, cs, n);
      if ApplyAll(t, cs[..n], actor).Ok? {
        LastLine(t, cs, actor);
      } else {
        ConflictStays(t.registry, cs, n, ApplyAll(t, cs[..n], actor).error);
      }
    }
  }

  /** What each line of a plan writes into the audit log. */
  predicate Audits(r: AuditRecord, c: Change, actor: string) {
    && r.actor == actor && r.event == c.Event()
    && match c
       case Adding(p) => r.operation == Add && r.before == None && r.after == Some(p.entry)
       case Modifying(p) => r.operation == Modify && r.before.Some? && r.after == Some(p.entry)
       case Removing(_) =>
         r.operation == Remove && r.before.Some? && r.after == Some(r.before.value.(status := Deprecated))
  }

  lemma {:induction false} EachLineIsAudited(t: Tenant, cs: seq<Change>, actor: string)
    requires ApplyAll(t, cs, actor).Ok?
    ensures var log := ApplyAll(t, cs, actor).value.log;
            && t.log <= log && |log| == |t.log| + |cs|
            && forall i | 0 <= i < |cs| :: Audits(log[|t.log| + i], cs[i], actor)
  {
    if cs != [] {
      var n := |cs| - 1;
      EachLineIsAudited(t, cs[..n], actor);
      var before, log := ApplyAll(t, cs[..n], actor).value.log, ApplyAll(t, cs, actor).value.log;
      assert log[..|before|] == before;
      forall i | 0 <= i < |cs|
        ensures Audits(log[|t.log| + i], cs[i], actor)
      {
        if i < n {
          assert cs[..n][i] == cs[i] && log[|t.log| + i] == before[|t.log| + i];
        }
      }
    }
  }

  /** The lines of a plan: added, then modified, then removed. */
  lemma {:induction false} LinesOfPlan(plan: Plan, i: nat)
    requires i < |plan.added| + |plan.modified| + |plan.removed|
    ensures var (cs, a, m) := (ChangesOf(plan), |plan.added|, |plan.added| + |plan.modified|);
            && |cs| == m + |plan.removed|
            && cs[i] == if i < a then Adding(plan.added[i]) else if i < m then Modifying(plan.modified[i - a])
                        else Removing(plan.removed[i - m])
  {
  }

  /**
   * When a plan applies, and what it is answered otherwise: a malformed plan and a plan computed against
   * another registry are turned away, in this order, then one with a line that does not fit.
   */
  lemma {:induction false} PlanAppliesExactly(t: Tenant, plan: Plan, fingerprint: map<string, Entry>, actor: string)
    ensures var out := ApplyPlan(t, plan, fingerprint, actor);
            && (out.Ok? <==> ValidPlan(plan) && fingerprint == t.registry && AllFit(t.registry, ChangesOf(plan)))
            && (out == Err(ValidationError) <==> !ValidPlan(plan))
            && (out == Err(StaleFingerprint) <==> ValidPlan(plan) && fingerprint != t.registry)
            && (ValidPlan(plan) && fingerprint == t.registry && !AllFit(t.registry, ChangesOf(plan)) ==>
                  out.Err? && Conflicts(t.registry, ChangesOf(plan), out.error))
  {
    LinesApplyExactly(t, ChangesOf(plan), actor);
    if ApplyAll(t, ChangesOf(plan), actor).Err? {
      ConflictIsOfLine(t.registry, ChangesOf(plan), ApplyAll(t, ChangesOf(plan), actor).error);
    }
  }

  lemma {:induction false} ConflictIsOfLine(registry: map<string, Entry>, cs: seq<Change>, failure: Failure)
    requires Conflicts(registry, cs, failure)
    ensures failure.AlreadyExists? || failure.DoesNotExist?
  {
  }

  lemma {:induction false} ServeOneMore(rs: seq<Request>, r: Request)
    ensures Serve(rs + [r]) == Handle(Serve(rs), r)
  {
    assert (rs + [r])[..|rs|] == rs;
  }

  /**
   * No write is lost: whatever requests come after a plan's fingerprint was taken, the plan changes
   * neither registry nor log unless the registry is still, or again, what the fingerprint was taken of.
   */
  lemma {:induction false} NoWriteIsLost(rs: seq<Request>, between: seq<Request>, plan: Plan, actor: string)
    ensures var (taken, before) := (Serve(rs).registry, Serve(rs + between));
            var after := Serve(rs + between + [RApply(plan, taken, actor)]);
            before.registry != taken ==> after == before
  {
    ServeOneMore(rs + between, RApply(plan, Serve(rs).registry, actor));
    PlanAppliesExactly(Serve(rs + between), plan, Serve(rs).registry, actor);
  }

  /* ---------------- the store as it changes its tables ---------------- */

  lemma {:induction false} ApplyConcat(t: Tenant, a: seq<Change>, b: seq<Change>, actor: string)
    ensures ApplyAll(t, a + b, actor)
         == if ApplyAll(t, a, actor).Ok? then ApplyAll(ApplyAll(t, a, actor).value, b, actor) else ApplyAll(t, a, actor)
  {
    if b == [] {
      assert a + b == a;
    } else {
      var s := a + b;
      assert s[..|s| - 1] == a + b[..|b| - 1] && s[|s| - 1] == b[|b| - 1];
      ApplyConcat(t, a, b[..|b| - 1], actor);
    }
  }

  /** The first line that does not apply decides. */
  lemma {:induction false} FailureStays(t: Tenant, cs: seq<Change>, i: nat, actor: string)
    requires i < |cs| && ApplyAll(t, cs[..i], actor).Ok?
    requires ApplyOne(ApplyAll(t, cs[..i], actor).value, cs[i], actor).Err?
    ensures ApplyAll(t, cs, actor) == ApplyOne(ApplyAll(t, cs[..i], actor).value, cs[i], actor)
  {
    assert cs[..i + 1][..i] == cs[..i];
    assert cs == cs[..i + 1] + cs[i + 1..];
    ApplyConcat(t, cs[..i + 1], cs[i + 1..], actor);
  }

  lemma {:induction false} ApplyNext(t: Tenant, cs: seq<Change>, i: nat, actor: string)
    requires i < |cs| && ApplyAll(t, cs[..i], actor).Ok?
    ensures ApplyAll(t, cs[..i + 1], actor) == ApplyOne(ApplyAll(t, cs[..i], actor).value, cs[i], actor)
  {
    assert cs[..i + 1][..i] == cs[..i];
  }

  method AddLines(t: Tenant, added: seq<Planned>, actor: string) returns (r: Outcome)
    ensures r == ApplyAll(t, Adds(added), actor)
  {
    ghost var cs := Adds(added);
    var tx := t;
    for i := 0 to |added|
      invariant ApplyAll(t, cs[..i], actor) == Ok(tx)
    {
      ApplyNext(t, cs, i, actor);
      var p := added[i];
      if p.entry.event in tx.registry {
        FailureStays(t, cs, i, actor);
        return Err(AlreadyExists(p.entry.event));
      }
      tx := Write(tx, actor, Add, None, p.entry);
    }
    assert cs[..|cs|] == cs;
    r := Ok(tx);
  }

  method ModifyLines(t: Tenant, modified: seq<Planned>, actor: string) returns (r: Outcome)
    ensures r == ApplyAll(t, Modifies(modified), actor)
  {
    ghost var cs := Modifies(modified);
    var tx := t;
    for i := 0 to |modified|
      invariant ApplyAll(t, cs[..i], actor) == Ok(tx)
    {
      ApplyNext(t, cs, i, actor);
      var p := modified[i];
      if p.entry.event !in tx.registry {
        FailureStays(t, cs, i, actor);
        return Err(DoesNotExist(p.entry.event));
      }
      tx := Write(tx, actor, Modify, Some(tx.registry[p.entry.event]), p.entry);
    }
    assert cs[..|cs|] == cs;
    r := Ok(tx);
  }

  method RemoveLines(t: Tenant, removed: seq<Removal>, actor: string) returns (r: Outcome)
    ensures r == ApplyAll(t, Removes(removed), actor)
  {
    ghost var cs := Removes(removed);
    var tx := t;
    for i := 0 to |removed|
      invariant ApplyAll(t, cs[..i], actor) == Ok(tx)
    {
      ApplyNext(t, cs, i, actor);
      var event := removed[i].event;
      if event !in tx.registry {
        FailureStays(t, cs, i, actor);
        return Err(DoesNotExist(event));
      }
      var before := tx.registry[event];
      var after := before.(status := Deprecated);
      tx := Tenant(tx.registry[event := after],
                   tx.log + [AuditRecord(actor, Remove, event, Some(before), Some(after))]);
    }
    assert cs[..|cs|] == cs;
    r := Ok(tx);
  }

  datatype ApplyResult = ApplyResult(added: nat, modified: nat, removed: nat)

  class RegistryStore {
    var registry: map<string, Entry>
    var log: seq<AuditRecord>

    ghost function State(): Tenant
      reads this
    {
      Tenant(registry, log)
    }

    /** createTenant: seeds the default taxonomy. */
    constructor ()
      ensures State() == Seeded(DefaultTaxonomy())
    {
      registry, log := map[], [];
      new;
      var entries := DefaultTaxonomy();
      for i := 0 to |entries|
        invariant State() == Seeded(entries[..i])
      {
        assert entries[..i + 1][..i] == entries[..i];
        registry := registry[entries[i].event := entries[i]];
        log := log + [AuditRecord("system", Seed, entries[i].event, None, Some(entries[i]))];
      }
      assert entries[..|entries|] == entries;
    }

    method Put(value: Option<Entry>, actor: string) returns (r: Result<Entry, Failure>)
      modifies this
      ensures match PutEntry(old(State()), value, actor)
              case Ok(t) => State() == t && value.Some? && r == Ok(value.value)
              case Err(e) => State() == old(State()) && r == Err(e)
      ensures if value.None? || !ValidEntry(value.value) then r == Err(ValidationError) && State() == old(State())
              else
                var entry := value.value;
                && r == Ok(entry) && registry == old(registry)[entry.event := entry]
                && log == old(log) + [AuditRecord(actor, Operation.Put, entry.event,
                                                  Lookup(old(registry), entry.event), Some(entry))]
    {
      if value.None? || !ValidEntry(value.value) {
        return Err(ValidationError);
      }
      var entry := value.value;
      var before := Lookup(registry, entry.event);
      registry := registry[entry.event := entry];
      log := log + [AuditRecord(actor, Operation.Put, entry.event, before, Some(entry))];
      r := Ok(entry);
    }

    /** One transaction: the loops work on its own copy of the tables, kept only if no line conflicts. */
    method Apply(plan: Plan, fingerprint: map<string, Entry>, actor: string) returns (r: Result<ApplyResult, Failure>)
      modifies this
      ensures match ApplyPlan(old(State()), plan, fingerprint, actor)
              case Ok(t) => State() == t && r == Ok(ApplyResult(|plan.added|, |plan.modified|, |plan.removed|))
              case Err(e) => State() == old(State()) && r == Err(e)
      ensures r.Err? ==> registry == old(registry) && log == old(log)
      ensures r.Ok? <==> ValidPlan(plan) && fingerprint == old(registry) && AllFit(old(registry), ChangesOf(plan))
      ensures !ValidPlan(plan) ==> r == Err(ValidationError)
      ensures ValidPlan(plan) && fingerprint != old(registry) ==> r == Err(StaleFingerprint)
    {
      PlanAppliesExactly(State(), plan, fingerprint, actor);
      if !ValidPlan(plan) {
        return Err(ValidationError);
      }
      if fingerprint != registry {
        return Err(StaleFingerprint);
      }
      ghost var adds, mods, removes := Adds(plan.added), Modifies(plan.modified), Removes(plan.removed);
      ApplyConcat(State(), adds + mods, removes, actor);
      ApplyConcat(State(), adds, mods, actor);
      var tx := AddLines(Tenant(registry, log), plan.added, actor);
      if tx.Ok? {
        tx := ModifyLines(tx.value, plan.modified, actor);
      }
      if tx.Ok? {
        tx := RemoveLines(tx.value, plan.removed, actor);
      }
      if tx.Err? {
        return Err(tx.error);
      }
      registry, log := tx.value.registry, tx.value.log;
      r := Ok(ApplyResult(|plan.added|, |plan.modified|, |plan.removed|));
    }
  }
}
