/** Local registry file against the backend (packages/cli/src/diff.ts), and what applying the diff achieves. */
module Diff {
  import opened Wrappers
  import opened Registry

  /** new Map(entries.map(e => [e.event, e])): the last entry of an event wins. */
  function ByEvent(entries: seq<Entry>): map<string, Entry> {
    if entries == [] then map[]
    else ByEvent(entries[..|entries| - 1])[entries[|entries| - 1].event := entries[|entries| - 1]]
  }

  function Filter(entries: seq<Entry>, p: Entry -> bool): (kept: seq<Entry>)
    ensures forall e :: e in kept <==> e in entries && p(e)
  {
    if entries == [] then []
    else
      var rest, last := Filter(entries[..|entries| - 1], p), entries[|entries| - 1];
      if p(last) then rest + [last] else rest
  }

  function AsPlanned(entries: seq<Entry>, filePath: string): seq<Planned> {
    seq(|entries|, i requires 0 <= i < |entries| =>
      Planned(entries[i], [filePath], "declared in the registry-as-code file"))
  }

  function AsRemovals(entries: seq<Entry>): seq<Removal> {
    seq(|entries|, i requires 0 <= i < |entries| => Removal(entries[i].event, "absent from the registry-as-code file"))
  }

  function AddedIn(local: seq<Entry>, remote: map<string, Entry>): seq<Entry> {
    Filter(local, (e: Entry) => e.event !in remote)
  }

  function ModifiedIn(local: seq<Entry>, remote: map<string, Entry>): seq<Entry> {
    Filter(local, (e: Entry) => e.event in remote && remote[e.event] != e)
  }

  function RemovedIn(remote: seq<Entry>, local: map<string, Entry>): seq<Entry> {
    Filter(remote, (e: Entry) => e.status == Active && e.event !in local)
  }

  /** The summary's wording carries nothing the theorems use; it is never empty. */
  function ComputeDiff(local: seq<Entry>, remote: seq<Entry>, repo: string, filePath: string): Plan {
    var added := AddedIn(local, ByEvent(remote));
    var modified := ModifiedIn(local, ByEvent(remote));
    var removed := RemovedIn(remote, ByEvent(local));
    var summary := if |added| + |modified| + |removed| == 0 then "No drift between the registry file and the backend."
                   else "Sync " + repo;
    Plan(repo, summary, AsPlanned(added, filePath), AsPlanned(modified, filePath), AsRemovals(removed))
  }

  predicate IsEmptyDiff(plan: Plan) {
    |plan.added| == 0 && |plan.modified| == 0 && |plan.removed| == 0
  }

  /** The entries GET /v1/registry/events lists: each of the registry's, once. */
  ghost predicate Lists(entries: seq<Entry>, registry: map<string, Entry>) {
    && DistinctEvents(entries)
    && (forall k <- registry :: registry[k].event == k)
    && forall e :: e in entries <==> e.event in registry && registry[e.event] == e
  }

  lemma {:induction false} ByEventIsLookup(entries: seq<Entry>)
    requires DistinctEvents(entries)
    ensures forall e <- entries :: e.event in ByEvent(entries) && ByEvent(entries)[e.event] == e
    ensures forall k <- ByEvent(entries) :: ByEvent(entries)[k] in entries && ByEvent(entries)[k].event == k
  {
    if entries != [] {
      var init, last := entries[..|entries| - 1], entries[|entries| - 1];
      assert entries == init + [last];
      ByEventIsLookup(init);
      forall e | e in init ensures e.event != last.event {
        var i :| 0 <= i < |init| && init[i] == e;
        assert entries[i].event != entries[|entries| - 1].event;
      }
    }
  }

  /** Of several entries for one event the last is found. */
  lemma {:induction false} ByEventFindsLast(entries: seq<Entry>, i: nat)
    requires i < |entries| && forall j | i < j < |entries| :: entries[j].event != entries[i].event
    ensures Lookup(ByEvent(entries), entries[i].event) == Some(entries[i])
  {
    if i < |entries| - 1 {
      ByEventFindsLast(entries[..|entries| - 1], i);
    }
  }

  lemma {:induction false} FilterKeepsDistinct(entries: seq<Entry>, p: Entry -> bool)
    requires DistinctEvents(entries)
    ensures DistinctEvents(Filter(entries, p))
  {
    if entries != [] {
      var init, last := entries[..|entries| - 1], entries[|entries| - 1];
      FilterKeepsDistinct(init, p);
      var kept := Filter(init, p);
      forall i | 0 <= i < |kept| ensures kept[i].event != last.event {
        assert kept[i] in init;
        var j :| 0 <= j < |init| && init[j] == kept[i];
        assert entries[j].event != entries[|entries| - 1].event;
      }
    }
  }

  /** Every local entry is the backend's, and every active event of the backend is in the file. */
  ghost predicate InSync(local: seq<Entry>, registry: map<string, Entry>) {
    && (forall e <- local :: Lookup(registry, e.event) == Some(e))
    && (forall k <- registry :: registry[k].status == Active ==> exists e <- local :: e.event == k)
  }

  lemma {:induction false} EmptyExactly(entries: seq<Entry>)
    ensures entries == [] <==> forall e :: e !in entries
  {
    if entries != [] {
      assert entries[0] in entries;
    }
  }

  lemma {:induction false} ListingIsRegistry(remote: seq<Entry>, registry: map<string, Entry>)
    requires Lists(remote, registry)
    ensures ByEvent(remote) == registry
  {
    ByEventIsLookup(remote);
    forall k ensures Lookup(ByEvent(remote), k) == Lookup(registry, k) {
      if k in registry {
        assert registry[k] in remote;
      }
    }
    assert forall k :: k in ByEvent(remote) <==> Lookup(ByEvent(remote), k).Some?;
    assert forall k :: k in registry <==> Lookup(registry, k).Some?;
  }

  lemma {:induction false} NoneAdded(local: seq<Entry>, registry: map<string, Entry>)
    ensures AddedIn(local, registry) == [] <==> forall e <- local :: e.event in registry
  {
    EmptyExactly(AddedIn(local, registry));
  }

  lemma {:induction false} NoneModified(local: seq<Entry>, registry: map<string, Entry>)
    ensures ModifiedIn(local, registry) == [] <==> forall e <- local :: e.event in registry ==> registry[e.event] == e
  {
    EmptyExactly(ModifiedIn(local, registry));
  }

  lemma {:induction false} NamedInFile(local: seq<Entry>, event: string)
    requires DistinctEvents(local)
    ensures event in ByEvent(local) <==> exists e <- local :: e.event == event
  {
    ByEventIsLookup(local);
  }

  lemma {:induction false} NoneRemoved(local: seq<Entry>, remote: seq<Entry>, registry: map<string, Entry>)
    requires Lists(remote, registry)
    ensures RemovedIn(remote, ByEvent(local)) == []
       <==> forall k <- registry :: registry[k].status == Active ==> k in ByEvent(local)
  {
    EmptyExactly(RemovedIn(remote, ByEvent(local)));
    assert forall k <- registry :: registry[k] in remote;
  }

  lemma {:induction false} EmptyInParts(local: seq<Entry>, remote: seq<Entry>, repo: string, filePath: string)
    ensures IsEmptyDiff(ComputeDiff(local, remote, repo, filePath))
       <==> AddedIn(local, ByEvent(remote)) == [] && ModifiedIn(local, ByEvent(remote)) == []
            && RemovedIn(remote, ByEvent(local)) == []
  {
  }

  lemma {:induction false} InSyncInParts(local: seq<Entry>, registry: map<string, Entry>)
    requires DistinctEvents(local)
    ensures InSync(local, registry)
       <==> (forall e <- local :: e.event in registry)
            && (forall e <- local :: e.event in registry ==> registry[e.event] == e)
            && (forall k <- registry :: registry[k].status == Active ==> k in ByEvent(local))
  {
    forall k | k in registry
      ensures k in ByEvent(local) <==> exists e <- local :: e.event == k
    {
      NamedInFile(local, k);
    }
  }

  /** No drift is reported exactly when file and backend are in sync. */
  lemma {:induction false} EmptyDiffExactly(local: seq<Entry>, remote: seq<Entry>, registry: map<string, Entry>,
                                            repo: string, filePath: string)
    requires DistinctEvents(local) && Lists(remote, registry)
    ensures IsEmptyDiff(ComputeDiff(local, remote, repo, filePath)) <==> InSync(local, registry)
  {
    ListingIsRegistry(remote, registry);
    EmptyInParts(local, remote, repo, filePath);
    NoneAdded(local, registry);
    NoneModified(local, registry);
    NoneRemoved(local, remote, registry);
    InSyncInParts(local, registry);
  }

  function Lines(added: seq<Entry>, modified: seq<Entry>, removed: seq<Entry>, filePath: string): seq<Change> {
    Adds(AsPlanned(added, filePath)) + Modifies(AsPlanned(modified, filePath)) + Removes(AsRemovals(removed))
  }

  /** Added events are new to the backend; modified and removed ones are not; removed ones are not in the file. */
  ghost predicate Parted(registry: map<string, Entry>, file: map<string, Entry>, added: seq<Entry>,
                         modified: seq<Entry>, removed: seq<Entry>) {
    && DistinctEvents(added) && DistinctEvents(modified) && DistinctEvents(removed)
    && (forall i | 0 <= i < |added| :: added[i].event in file && added[i].event !in registry)
    && (forall i | 0 <= i < |modified| :: modified[i].event in file && modified[i].event in registry)
    && (forall i | 0 <= i < |removed| :: removed[i].event !in file && removed[i].event in registry)
  }

  lemma {:induction false} LineEvents(added: seq<Entry>, modified: seq<Entry>, removed: seq<Entry>, filePath: string,
                                      i: nat)
    requires i < |Lines(added, modified, removed, filePath)|
    ensures var c := Lines(added, modified, removed, filePath)[i];
            var a, m := |added|, |added| + |modified|;
            if i < a then c.Adding? && c.planned.entry == added[i]
            else if i < m then c.Modifying? && c.planned.entry == modified[i - a]
            else i - m < |removed| && c.Removing? && c.removal.event == removed[i - m].event
  {
  }

  /** The parts of a diff name pairwise distinct events, and each line fits the backend's registry. */
  lemma {:induction false} LinesAreIndependent(registry: map<string, Entry>, file: map<string, Entry>,
                            added: seq<Entry>, modified: seq<Entry>, removed: seq<Entry>, filePath: string)
    requires Parted(registry, file, added, modified, removed)
    ensures var cs := Lines(added, modified, removed, filePath);
            DistinctChanges(cs) && forall i | 0 <= i < |cs| :: Applicable(registry, cs[i])
  {
    var cs := Lines(added, modified, removed, filePath);
    forall i | 0 <= i < |cs| ensures Applicable(registry, cs[i]) {
      LineEvents(added, modified, removed, filePath, i);
    }
    forall i, j | 0 <= i < j < |cs| ensures cs[i].Event() != cs[j].Event() {
      LineEvents(added, modified, removed, filePath, i);
      LineEvents(added, modified, removed, filePath, j);
    }
  }

  lemma {:induction false} DiffIsParted(local: seq<Entry>, remote: seq<Entry>, registry: map<string, Entry>)
    requires DistinctEvents(local) && Lists(remote, registry)
    ensures Parted(registry, ByEvent(local), AddedIn(local, registry), ModifiedIn(local, registry),
                   RemovedIn(remote, ByEvent(local)))
  {
    var added, modified := AddedIn(local, registry), ModifiedIn(local, registry);
    var removed := RemovedIn(remote, ByEvent(local));
    ByEventIsLookup(local);
    FilterKeepsDistinct(local, (e: Entry) => e.event !in registry);
    FilterKeepsDistinct(local, (e: Entry) => e.event in registry && registry[e.event] != e);
    FilterKeepsDistinct(remote, (e: Entry) => e.status == Active && e.event !in ByEvent(local));
    assert forall i | 0 <= i < |added| :: added[i] in added;
    assert forall i | 0 <= i < |modified| :: modified[i] in modified;
    assert forall i | 0 <= i < |removed| :: removed[i] in removed;
  }

  /** The entry the backend holds for an event after a sync with the file. */
  function Synced(local: seq<Entry>, registry: map<string, Entry>, event: string): Option<Entry> {
    if event in ByEvent(local) then Some(ByEvent(local)[event])
    else if event in registry && registry[event].status == Active then Some(registry[event].(status := Deprecated))
    else Lookup(registry, event)
  }

  lemma {:induction false} PlannedAreValid(entries: seq<Entry>, filePath: string)
    requires (forall e <- entries :: ValidEntry(e)) && filePath != ""
    ensures forall p <- AsPlanned(entries, filePath) :: ValidPlanned(p)
  {
    forall p | p in AsPlanned(entries, filePath)
      ensures ValidPlanned(p)
    {
      var i :| 0 <= i < |entries| && AsPlanned(entries, filePath)[i] == p;
      assert entries[i] in entries;
    }
  }

  lemma {:induction false} RemovalsAreValid(entries: seq<Entry>)
    requires forall e <- entries :: ValidEntry(e)
    ensures forall r <- AsRemovals(entries) :: r.event != "" && r.reason != ""
  {
    forall r | r in AsRemovals(entries)
      ensures r.event != "" && r.reason != ""
    {
      var i :| 0 <= i < |entries| && AsRemovals(entries)[i] == r;
      assert entries[i] in entries;
    }
  }

  lemma {:induction false} DiffIsValidPlan(local: seq<Entry>, remote: seq<Entry>, registry: map<string, Entry>,
                                           repo: string, filePath: string)
    requires Lists(remote, registry) && EntriesValid(registry)
    requires forall e <- local :: ValidEntry(e)
    requires repo != "" && filePath != ""
    ensures ValidPlan(ComputeDiff(local, remote, repo, filePath))
    ensures ComputeDiff(local, remote, repo, filePath).repo == repo
  {
    PlannedAreValid(AddedIn(local, ByEvent(remote)), filePath);
    PlannedAreValid(ModifiedIn(local, ByEvent(remote)), filePath);
    RemovalsAreValid(RemovedIn(remote, ByEvent(local)));
  }

  /** Applying the lines of a diff. */
  function Synchronised(t: Tenant, added: seq<Entry>, modified: seq<Entry>, removed: seq<Entry>, filePath: string,
                        actor: string): Outcome
  {
    ApplyAll(t, Lines(added, modified, removed, filePath), actor)
  }

  /** Line k sets its event to its target. */
  lemma {:induction false} LineSetsTarget(t: Tenant, file: map<string, Entry>, added: seq<Entry>, modified: seq<Entry>,
                                          removed: seq<Entry>, filePath: string, actor: string, k: nat)
    requires Parted(t.registry, file, added, modified, removed)
    requires k < |Lines(added, modified, removed, filePath)|
    ensures var (out, c) := (Synchronised(t, added, modified, removed, filePath, actor),
                             Lines(added, modified, removed, filePath)[k]);
            && out.Ok? && Applicable(t.registry, c)
            && Lookup(out.value.registry, c.Event()) == Some(Target(t.registry, c))
  {
    LinesAreIndependent(t.registry, file, added, modified, removed, filePath);
    DistinctChangesApply(t, Lines(added, modified, removed, filePath), actor);
  }

  lemma {:induction false} AddedIsSet(t: Tenant, file: map<string, Entry>, added: seq<Entry>, modified: seq<Entry>,
                                      removed: seq<Entry>, filePath: string, actor: string, i: nat)
    requires Parted(t.registry, file, added, modified, removed) && i < |added|
    ensures var out := Synchronised(t, added, modified, removed, filePath, actor);
            out.Ok? && Lookup(out.value.registry, added[i].event) == Some(added[i])
  {
    LineEvents(added, modified, removed, filePath, i);
    LineSetsTarget(t, file, added, modified, removed, filePath, actor, i);
  }

  lemma {:induction false} ModifiedIsSet(t: Tenant, file: map<string, Entry>, added: seq<Entry>, modified: seq<Entry>,
                                         removed: seq<Entry>, filePath: string, actor: string, i: nat)
    requires Parted(t.registry, file, added, modified, removed) && i < |modified|
    ensures var out := Synchronised(t, added, modified, removed, filePath, actor);
            out.Ok? && Lookup(out.value.registry, modified[i].event) == Some(modified[i])
  {
    LineEvents(added, modified, removed, filePath, |added| + i);
    LineSetsTarget(t, file, added, modified, removed, filePath, actor, |added| + i);
  }

  lemma {:induction false} RemovedIsDeprecated(t: Tenant, file: map<string, Entry>, added: seq<Entry>,
                                               modified: seq<Entry>, removed: seq<Entry>, filePath: string,
                                               actor: string, i: nat)
    requires Parted(t.registry, file, added, modified, removed) && i < |removed|
    ensures var (out, event) := (Synchronised(t, added, modified, removed, filePath, actor), removed[i].event);
            && out.Ok? && event in t.registry
            && Lookup(out.value.registry, event) == Some(t.registry[event].(status := Deprecated))
  {
    var k := |added| + |modified| + i;
    LineEvents(added, modified, removed, filePath, k);
    LineSetsTarget(t, file, added, modified, removed, filePath, actor, k);
  }

  /** An event no line names. */
  ghost predicate Unnamed(added: seq<Entry>, modified: seq<Entry>, removed: seq<Entry>, event: string) {
    && (forall i | 0 <= i < |added| :: added[i].event != event)
    && (forall i | 0 <= i < |modified| :: modified[i].event != event)
    && (forall i | 0 <= i < |removed| :: removed[i].event != event)
  }

  lemma {:induction false} UnnamedIsKept(t: Tenant, file: map<string, Entry>, added: seq<Entry>, modified: seq<Entry>,
                                         removed: seq<Entry>, filePath: string, actor: string, event: string)
    requires Parted(t.registry, file, added, modified, removed) && Unnamed(added, modified, removed, event)
    ensures var out := Synchronised(t, added, modified, removed, filePath, actor);
            out.Ok? && Lookup(out.value.registry, event) == Lookup(t.registry, event)
  {
    var cs := Lines(added, modified, removed, filePath);
    forall k | 0 <= k < |cs|
      ensures cs[k].Event() != event
    {
      LineEvents(added, modified, removed, filePath, k);
    }
    LinesAreIndependent(t.registry, file, added, modified, removed, filePath);
    DistinctChangesApply(t, cs, actor);
  }

  /** The backend's registry after applying the diff, event by event. */
  lemma {:induction false} SyncSetsEveryEvent(t: Tenant, local: seq<Entry>, remote: seq<Entry>, repo: string,
                                              filePath: string, actor: string, event: string)
    requires DistinctEvents(local) && Lists(remote, t.registry)
    ensures var out := ApplyAll(t, ChangesOf(ComputeDiff(local, remote, repo, filePath)), actor);
            out.Ok? && Lookup(out.value.registry, event) == Synced(local, t.registry, event)
  {
    var added, modified := AddedIn(local, t.registry), ModifiedIn(local, t.registry);
    var removed := RemovedIn(remote, ByEvent(local));
    ListingIsRegistry(remote, t.registry);
    ByEventIsLookup(local);
    DiffIsParted(local, remote, t.registry);
    PartsSetEvent(t, local, remote, added, modified, removed, filePath, actor, event);
  }

  lemma {:induction false} PartsSetEvent(t: Tenant, local: seq<Entry>, remote: seq<Entry>, added: seq<Entry>,
                                         modified: seq<Entry>, removed: seq<Entry>, filePath: string, actor: string,
                                         event: string)
    requires DistinctEvents(local) && Lists(remote, t.registry)
    requires added == AddedIn(local, t.registry) && modified == ModifiedIn(local, t.registry)
    requires removed == RemovedIn(remote, ByEvent(local))
    requires Parted(t.registry, ByEvent(local), added, modified, removed)
    ensures var out := Synchronised(t, added, modified, removed, filePath, actor);
            out.Ok? && Lookup(out.value.registry, event) == Synced(local, t.registry, event)
  {
    ByEventIsLookup(local);
    if i :| 0 <= i < |added| && added[i].event == event {
      AddedIsSet(t, ByEvent(local), added, modified, removed, filePath, actor, i);
      assert added[i] in added;
    } else if i :| 0 <= i < |modified| && modified[i].event == event {
      ModifiedIsSet(t, ByEvent(local), added, modified, removed, filePath, actor, i);
      assert modified[i] in modified;
    } else if i :| 0 <= i < |removed| && removed[i].event == event {
      RemovedIsDeprecated(t, ByEvent(local), added, modified, removed, filePath, actor, i);
      assert removed[i] in removed;
    } else {
      UnnamedIsKept(t, ByEvent(local), added, modified, removed, filePath, actor, event);
      UnnamedIsSynced(local, remote, t.registry, added, modified, removed, event);
    }
  }

  lemma {:induction false} UnnamedIsSynced(local: seq<Entry>, remote: seq<Entry>, registry: map<string, Entry>,
                                           added: seq<Entry>, modified: seq<Entry>, removed: seq<Entry>, event: string)
    requires DistinctEvents(local) && Lists(remote, registry)
    requires added == AddedIn(local, registry) && modified == ModifiedIn(local, registry)
    requires removed == RemovedIn(remote, ByEvent(local)) && Unnamed(added, modified, removed, event)
    ensures Synced(local, registry, event) == Lookup(registry, event)
  {
    ByEventIsLookup(local);
    if event in ByEvent(local) {
      var e := ByEvent(local)[event];
      assert e !in added && e !in modified;
    } else if event in registry {
      assert registry[event] !in removed && registry[event] in remote;
    }
  }

  lemma {:induction false} SyncedIsInSync(local: seq<Entry>, registry: map<string, Entry>, r: map<string, Entry>)
    requires DistinctEvents(local)
    requires forall k :: Lookup(r, k) == Synced(local, registry, k)
    ensures InSync(local, r)
    ensures registry.Keys <= r.Keys
  {
    ByEventIsLookup(local);
    assert forall k :: k in r <==> Lookup(r, k).Some?;
    forall k | k in registry ensures k in r {
      assert Lookup(r, k) == Synced(local, registry, k);
    }
    forall k | k in r && r[k].status == Active ensures exists e <- local :: e.event == k {
      assert Lookup(r, k) == Synced(local, registry, k);
    }
  }

  /**
   * Sync converges. For every duplicate-free file of valid entries and every valid registry, the
   * computed diff applies without conflict; afterwards every local entry is the backend's, no event
   * is lost, an event absent from the file is deprecated if it was active and otherwise untouched,
   * and the next diff, against any listing of the new registry, is empty.
   */
  lemma {:induction false} SyncConverges(t: Tenant, local: seq<Entry>, remote: seq<Entry>, repo: string,
                                         filePath: string, actor: string)
    requires DistinctEvents(local) && (forall e <- local :: ValidEntry(e))
    requires Lists(remote, t.registry) && EntriesValid(t.registry)
    requires repo != "" && filePath != ""
    ensures var out := ApplyPlan(t, ComputeDiff(local, remote, repo, filePath), t.registry, actor);
            && out.Ok?
            && (forall e <- local :: Lookup(out.value.registry, e.event) == Some(e))
            && t.registry.Keys <= out.value.registry.Keys
            && (forall k :: Lookup(out.value.registry, k) == Synced(local, t.registry, k))
            && InSync(local, out.value.registry)
            && (forall again: seq<Entry> | Lists(again, out.value.registry) ::
                  IsEmptyDiff(ComputeDiff(local, again, repo, filePath)))
  {
    var cs := ChangesOf(ComputeDiff(local, remote, repo, filePath));
    DiffIsValidPlan(local, remote, t.registry, repo, filePath);
    assert ApplyPlan(t, ComputeDiff(local, remote, repo, filePath), t.registry, actor) == ApplyAll(t, cs, actor);
    forall k
      ensures ApplyAll(t, cs, actor).Ok?
      ensures Lookup(ApplyAll(t, cs, actor).value.registry, k) == Synced(local, t.registry, k)
    {
      SyncSetsEveryEvent(t, local, remote, repo, filePath, actor, k);
    }
    assert ApplyAll(t, cs, actor).Ok? by {
      SyncSetsEveryEvent(t, local, remote, repo, filePath, actor, "");
    }
    var r := ApplyAll(t, cs, actor).value.registry;
    SyncedIsInSync(local, t.registry, r);
    forall again: seq<Entry> | Lists(again, r)
      ensures IsEmptyDiff(ComputeDiff(local, again, repo, filePath))
    {
      EmptyDiffExactly(local, again, r, repo, filePath);
    }
  }
}
