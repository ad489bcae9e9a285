/**
 * The ClickHouse tables (packages/pipeline/src/ch-migrate.ts, clickhouse.ts) and the reads
 * the semantic layer makes of them (packages/analysis/src/semantic.ts).
 *
 * `events` is a ReplacingMergeTree: rows in insertion order, of which FINAL shows the last per
 * dedup key. `daily_rollups` is a SummingMergeTree fed by a materialized view at insert time.
 * Merges run in the background at any moment.
 */
module Storage {
  import opened Transform

  /** ORDER BY (tenant_id, task_type, event, timestamp, event_id): the dedup identity. */
  datatype Key = Key(tenantId: string, taskType: string, event: string, timestamp: int, eventId: string)

  function KeyOf(r: EventRow): Key {
    Key(r.tenantId, r.taskType, r.event, r.timestamp, r.eventId)
  }

  /** Rows share an identity exactly if they agree on all five columns of the table's ORDER BY. */
  lemma {:induction false} KeyIsFiveColumns(a: EventRow, b: EventRow)
    ensures KeyOf(a) == KeyOf(b)
       <==> && a.tenantId == b.tenantId && a.taskType == b.taskType && a.event == b.event
            && a.timestamp == b.timestamp && a.eventId == b.eventId
  {
  }

  /* ---------------- FINAL ---------------- */

  /** What a FINAL read shows: for each key, the row inserted last. */
  function Final(rows: seq<EventRow>): map<Key, EventRow> {
    if rows == [] then map[]
    else
      var last := rows[|rows| - 1];
      Final(rows[..|rows| - 1])[KeyOf(last) := last]
  }

  lemma {:induction false} FinalConcat(a: seq<EventRow>, b: seq<EventRow>)
    ensures Final(a + b) == Final(a) + Final(b)
  {
    if b == [] {
      assert a + b == a;
    } else {
      var n := |b| - 1;
      assert (a + b)[..|a + b| - 1] == a + b[..n];
      FinalConcat(a, b[..n]);
    }
  }

  /** FINAL shows exactly the keys present, each with a row that has that key. */
  lemma {:induction false} FinalKeys(rows: seq<EventRow>)
    ensures Final(rows).Keys == set r | r in rows :: KeyOf(r)
    ensures forall k <- Final(rows).Keys :: Final(rows)[k] in rows && KeyOf(Final(rows)[k]) == k
  {
    if rows != [] {
      var n := |rows| - 1;
      FinalKeys(rows[..n]);
      assert rows == rows[..n] + [rows[n]];
    }
  }

  /** The row FINAL shows is the last one inserted under its key, and every such row is shown. */
  lemma {:induction false} FinalShowsLast(rows: seq<EventRow>, i: nat)
    requires i < |rows|
    ensures KeyOf(rows[i]) in Final(rows)
    ensures (forall j | i < j < |rows| :: KeyOf(rows[j]) != KeyOf(rows[i])) ==> Final(rows)[KeyOf(rows[i])] == rows[i]
  {
    var n := |rows| - 1;
    if i < n {
      FinalShowsLast(rows[..n], i);
    }
  }

  /** Rows that agree wherever they share a key. */
  predicate Consistent(rows: seq<EventRow>) {
    forall i, j | 0 <= i < |rows| && 0 <= j < |rows| && KeyOf(rows[i]) == KeyOf(rows[j]) :: rows[i] == rows[j]
  }

  /** If same-key rows are identical, FINAL depends only on which rows are present: order and repeats vanish. */
  lemma {:induction false} FinalOfSameRows(a: seq<EventRow>, b: seq<EventRow>)
    requires Consistent(a)
    requires forall r :: r in a <==> r in b
    ensures Final(a) == Final(b)
  {
    FinalKeys(a);
    FinalKeys(b);
    forall k | k in Final(a).Keys
      ensures k in Final(b) && Final(a)[k] == Final(b)[k]
    {
      var x, y := Final(a)[k], Final(b)[k];
      var i :| 0 <= i < |a| && a[i] == x;
      assert y in a;
      var j :| 0 <= j < |a| && a[j] == y;
      assert KeyOf(a[i]) == KeyOf(a[j]);
    }
    assert Final(a).Keys == Final(b).Keys;
  }

  /* ---------------- partition-local FINAL ---------------- */

  function Keep(rows: seq<EventRow>, p: EventRow -> bool): (kept: seq<EventRow>)
    ensures forall r :: r in kept <==> r in rows && p(r)
  {
    if rows == [] then []
    else
      var n := |rows| - 1;
      if p(rows[n]) then Keep(rows[..n], p) + [rows[n]] else Keep(rows[..n], p)
  }

  /** The predicate cannot tell two rows with one key apart. */
  ghost predicate KeyDetermined(p: EventRow -> bool) {
    forall a, b | KeyOf(a) == KeyOf(b) :: p(a) == p(b)
  }

  function Restrict(m: map<Key, EventRow>, p: EventRow -> bool): map<Key, EventRow> {
    map k | k in m && p(m[k]) :: m[k]
  }

  lemma {:induction false} RestrictKept(m: map<Key, EventRow>, k: Key, r: EventRow, p: EventRow -> bool)
    requires p(r)
    ensures Restrict(m[k := r], p) == Restrict(m, p)[k := r]
  {
  }

  lemma {:induction false} RestrictDropped(m: map<Key, EventRow>, k: Key, r: EventRow, p: EventRow -> bool)
    requires !p(r) && (k in m ==> !p(m[k]))
    ensures Restrict(m[k := r], p) == Restrict(m, p)
  {
  }

  /** Filtering on key columns commutes with FINAL: reading then restricting is restricting then reading. */
  lemma {:induction false} FilterCommutesWithFinal(rows: seq<EventRow>, p: EventRow -> bool)
    requires KeyDetermined(p)
    ensures Final(Keep(rows, p)) == Restrict(Final(rows), p)
  {
    if rows != [] {
      var init, last := rows[..|rows| - 1], rows[|rows| - 1];
      var k := KeyOf(last);
      FilterCommutesWithFinal(init, p);
      if p(last) {
        var kept := Keep(rows, p);
        assert kept[..|kept| - 1] == Keep(init, p) && kept[|kept| - 1] == last;
        RestrictKept(Final(init), k, last, p);
      } else {
        FinalKeys(init);
        RestrictDropped(Final(init), k, last, p);
      }
    }
  }

  /** What the whole-table FINAL returns. */
  function FullFinal(rows: seq<EventRow>): set<EventRow> {
    Final(rows).Values
  }

  /** What FINAL returns when every partition is deduplicated on its own. */
  function BoundedFinal(rows: seq<EventRow>, part: EventRow -> int): set<EventRow> {
    set r | r in rows && r in Final(Keep(rows, (x: EventRow) => part(x) == part(r))).Values
  }

  ghost predicate PartitionOfKey(part: EventRow -> int) {
    forall a, b | KeyOf(a) == KeyOf(b) :: part(a) == part(b)
  }

  lemma {:induction false} BoundedFinalIsFull(rows: seq<EventRow>, part: EventRow -> int)
    requires PartitionOfKey(part)
    ensures BoundedFinal(rows, part) == FullFinal(rows)
  {
    FinalKeys(rows);
    forall r: EventRow
      ensures r in BoundedFinal(rows, part) <==> r in FullFinal(rows)
    {
      if r in rows {
        var p := (x: EventRow) => part(x) == part(r);
        FilterCommutesWithFinal(rows, p);
        FinalKeys(Keep(rows, p));
        if r in FullFinal(rows) {
          var k :| k in Final(rows) && Final(rows)[k] == r;
          assert Final(Keep(rows, p))[k] == r;
        }
        if r in BoundedFinal(rows, part) {
          var k :| k in Final(Keep(rows, p)) && Final(Keep(rows, p))[k] == r;
          assert Final(rows)[k] == r;
        }
      }
    }
  }

  /**
   * Partition-local FINAL agrees with the full one on every table exactly when the partition is a
   * function of the dedup key; two same-key rows in two partitions would both be shown.
   */
  lemma {:induction false} BoundedFinalExactly(part: EventRow -> int)
    ensures (forall rows :: BoundedFinal(rows, part) == FullFinal(rows)) <==> PartitionOfKey(part)
  {
    if PartitionOfKey(part) {
      forall rows: seq<EventRow> ensures BoundedFinal(rows, part) == FullFinal(rows) {
        BoundedFinalIsFull(rows, part);
      }
    }
    if forall rows :: BoundedFinal(rows, part) == FullFinal(rows) {
      forall a, b | KeyOf(a) == KeyOf(b) ensures part(a) == part(b) {
        if part(a) != part(b) {
          SplitKeyIsShownTwice(a, b, part);
          assert false;
        }
      }
    }
  }

  lemma {:induction false} SplitKeyIsShownTwice(a: EventRow, b: EventRow, part: EventRow -> int)
    requires KeyOf(a) == KeyOf(b) && part(a) != part(b)
    ensures a in BoundedFinal([a, b], part) && a !in FullFinal([a, b])
  {
    var rows := [a, b];
    assert rows[..1] == [a];
    assert Final([a]) == map[KeyOf(a) := a] by { assert [a][..0] == []; }
    assert Final(rows) == map[KeyOf(b) := b];
    var p := (x: EventRow) => part(x) == part(a);
    assert Keep([a], p) == [a] by { assert [a][..0] == []; }
    assert Keep(rows, p) == [a];
    assert a in Final(Keep(rows, p)).Values by { assert Final([a])[KeyOf(a)] == a; }
  }

  const MS_PER_DAY := 86_400_000

  function DayOf(timestamp: int): int {
    timestamp / MS_PER_DAY
  }

  /** PARTITION BY toYYYYMM(timestamp), whichever month the calendar gives an instant. */
  function MonthPartition(month: int -> int): EventRow -> int {
    (r: EventRow) => month(r.timestamp)
  }

  /* ---------------- the rollup cache ---------------- */

  /** The grain of daily_rollups: a function of the dedup key. */
  datatype Group = Group(tenantId: string, taskType: string, day: int)

  function GroupOf(k: Key): Group {
    Group(k.tenantId, k.taskType, DayOf(k.timestamp))
  }

  datatype Counts = Counts(completed: nat, ended: nat, abandoned: nat, events: nat)

  const ZERO := Counts(0, 0, 0, 0)

  function Plus(a: Counts, b: Counts): Counts {
    Counts(a.completed + b.completed, a.ended + b.ended, a.abandoned + b.abandoned, a.events + b.events)
  }

  /** The columns countIf and count() fill. */
  datatype Counter = Completed | Ended | Abandoned | Events {
    predicate Takes(k: Key) {
      match this
      case Completed => k.event == "task_completed"
      case Ended => k.event == "task_completed" || k.event == "task_failed" || k.event == "task_abandoned"
      case Abandoned => k.event == "task_abandoned"
      case Events => true
    }

    function Of(c: Counts): nat {
      match this
      case Completed => c.completed
      case Ended => c.ended
      case Abandoned => c.abandoned
      case Events => c.events
    }
  }

  function One(c: Counter, k: Key): nat {
    if c.Takes(k) then 1 else 0
  }

  /** One row's contribution to the view's columns. */
  function Contribution(k: Key): Counts {
    Counts(One(Completed, k), One(Ended, k), One(Abandoned, k), One(Events, k))
  }

  /** The keys a counter counts in the selected groups. */
  function Counted(q: Group -> bool, c: Counter): Key -> bool {
    (k: Key) => q(GroupOf(k)) && c.Takes(k)
  }

  datatype Rollup = Rollup(group: Group, counts: Counts)

  /** SELECT sum(...) over the rollup rows whose group is selected. */
  function Total(rollups: seq<Rollup>, q: Group -> bool): Counts {
    if rollups == [] then ZERO
    else
      var n := |rollups| - 1;
      var rest := Total(rollups[..n], q);
      if q(rollups[n].group) then Plus(rest, rollups[n].counts) else rest
  }

  /** Adds to the group's row of a GROUP BY result, opening the row if it is new. */
  function Bump(block: seq<Rollup>, g: Group, c: Counts): seq<Rollup> {
    if block == [] then [Rollup(g, c)]
    else
      var n := |block| - 1;
      if block[n].group == g then block[n := Rollup(g, Plus(block[n].counts, c))]
      else Bump(block[..n], g, c) + [block[n]]
  }

  /** The materialized view's SELECT ... GROUP BY over one inserted block. */
  function ViewOf(rows: seq<EventRow>): seq<Rollup> {
    if rows == [] then []
    else
      var n := |rows| - 1;
      var k := KeyOf(rows[n]);
      Bump(ViewOf(rows[..n]), GroupOf(k), Contribution(k))
  }

  /** The same counts taken row by row. */
  function Tally(rows: seq<EventRow>, q: Group -> bool): Counts {
    if rows == [] then ZERO
    else
      var n := |rows| - 1;
      var rest := Tally(rows[..n], q);
      var k := KeyOf(rows[n]);
      if q(GroupOf(k)) then Plus(rest, Contribution(k)) else rest
  }

  lemma {:induction false} BumpTotal(block: seq<Rollup>, g: Group, c: Counts, q: Group -> bool)
    ensures Total(Bump(block, g, c), q) == if q(g) then Plus(Total(block, q), c) else Total(block, q)
  {
    if block == [] {
      assert [Rollup(g, c)][..0] == [];
    } else {
      var n := |block| - 1;
      if block[n].group == g {
        assert block[n := Rollup(g, Plus(block[n].counts, c))][..n] == block[..n];
      } else {
        BumpTotal(block[..n], g, c, q);
        var out := Bump(block[..n], g, c) + [block[n]];
        assert out[..|out| - 1] == Bump(block[..n], g, c);
      }
    }
  }

  lemma {:induction false} ViewTotal(rows: seq<EventRow>, q: Group -> bool)
    ensures Total(ViewOf(rows), q) == Tally(rows, q)
  {
    if rows != [] {
      var n := |rows| - 1;
      ViewTotal(rows[..n], q);
      BumpTotal(ViewOf(rows[..n]), GroupOf(KeyOf(rows[n])), Contribution(KeyOf(rows[n])), q);
    }
  }

  lemma {:induction false} TotalConcat(a: seq<Rollup>, b: seq<Rollup>, q: Group -> bool)
    ensures Total(a + b, q) == Plus(Total(a, q), Total(b, q))
  {
    if b == [] {
      assert a + b == a;
    } else {
      var n := |b| - 1;
      var s := a + b;
      assert s[..|s| - 1] == a + b[..n] && s[|s| - 1] == b[n];
      TotalConcat(a, b[..n], q);
    }
  }

  lemma {:induction false} TallyConcat(a: seq<EventRow>, b: seq<EventRow>, q: Group -> bool)
    ensures Tally(a + b, q) == Plus(Tally(a, q), Tally(b, q))
  {
    if b == [] {
      assert a + b == a;
    } else {
      var n := |b| - 1;
      var s := a + b;
      assert s[..|s| - 1] == a + b[..n] && s[|s| - 1] == b[n];
      TallyConcat(a, b[..n], q);
    }
  }

  /* ---------------- counting rows against distinct keys ---------------- */

  function Number(rows: seq<EventRow>, p: Key -> bool): nat {
    if rows == [] then 0
    else Number(rows[..|rows| - 1], p) + (if p(KeyOf(rows[|rows| - 1])) then 1 else 0)
  }

  function Distinct(rows: seq<EventRow>, p: Key -> bool): set<Key> {
    set r | r in rows && p(KeyOf(r)) :: KeyOf(r)
  }

  /** No key satisfying p occurs at two positions. */
  predicate NoRepeat(rows: seq<EventRow>, p: Key -> bool) {
    forall i, j | 0 <= i < j < |rows| && p(KeyOf(rows[i])) :: KeyOf(rows[i]) != KeyOf(rows[j])
  }

  lemma {:induction false} DistinctOneMore(rows: seq<EventRow>, p: Key -> bool, last: EventRow)
    ensures Distinct(rows + [last], p) == Distinct(rows, p) + if p(KeyOf(last)) then {KeyOf(last)} else {}
  {
  }

  lemma {:induction false} NoRepeatOneMore(rows: seq<EventRow>, p: Key -> bool, last: EventRow)
    ensures NoRepeat(rows + [last], p) <==> NoRepeat(rows, p) && KeyOf(last) !in Distinct(rows, p)
  {
    var all := rows + [last];
    if NoRepeat(all, p) {
      assert forall i | 0 <= i < |rows| :: all[i] == rows[i];
      assert all[|rows|] == last;
    }
    if NoRepeat(rows, p) && KeyOf(last) !in Distinct(rows, p) {
      forall i, j | 0 <= i < j < |all| && p(KeyOf(all[i]))
        ensures KeyOf(all[i]) != KeyOf(all[j])
      {
        assert rows[i] in rows;
      }
    }
  }

  lemma {:induction false} NumberOneMore(rows: seq<EventRow>, p: Key -> bool, last: EventRow)
    ensures Number(rows + [last], p) == Number(rows, p) + if p(KeyOf(last)) then 1 else 0
  {
    assert (rows + [last])[..|rows|] == rows;
  }

  lemma {:induction false} OneMoreDistinct(rows: seq<EventRow>, p: Key -> bool, last: EventRow, all: seq<EventRow>)
    requires all == rows + [last]
    requires |Distinct(rows, p)| <= Number(rows, p) && (|Distinct(rows, p)| == Number(rows, p) <==> NoRepeat(rows, p))
    ensures |Distinct(all, p)| <= Number(all, p) && (|Distinct(all, p)| == Number(all, p) <==> NoRepeat(all, p))
  {
    NumberOneMore(rows, p, last);
    DistinctOneMore(rows, p, last);
    NoRepeatOneMore(rows, p, last);
  }

  lemma {:induction false} DistinctAtMostNumber(rows: seq<EventRow>, p: Key -> bool)
    ensures |Distinct(rows, p)| <= Number(rows, p)
    ensures |Distinct(rows, p)| == Number(rows, p) <==> NoRepeat(rows, p)
  {
    if rows != [] {
      var n := |rows| - 1;
      DistinctAtMostNumber(rows[..n], p);
      OneMoreDistinct(rows[..n], p, rows[n], rows);
    }
  }

  lemma {:induction false} TallyIsNumber(rows: seq<EventRow>, q: Group -> bool, c: Counter)
    ensures c.Of(Tally(rows, q)) == Number(rows, Counted(q, c))
  {
    if rows != [] {
      TallyIsNumber(rows[..|rows| - 1], q, c);
    }
  }

  /* ---------------- the rollup's columns, read off the rows ---------------- */

  /** The places of rows of this event in the groups selected by tenant, task type and day. */
  function Places(rows: seq<EventRow>, q: Group -> bool, event: string): set<nat> {
    set i: nat | i < |rows| && Selected(rows[i], q) && rows[i].event == event
  }

  predicate Selected(row: EventRow, q: Group -> bool) {
    q(Group(row.tenantId, row.taskType, row.timestamp / 86_400_000))
  }

  function AllPlaces(rows: seq<EventRow>, q: Group -> bool): set<nat> {
    set i: nat | i < |rows| && Selected(rows[i], q)
  }

  lemma {:induction false} PlacesOneMore(rows: seq<EventRow>, q: Group -> bool, event: string)
    requires rows != []
    ensures var n := |rows| - 1;
            && |Places(rows, q, event)|
               == |Places(rows[..n], q, event)| + (if Selected(rows[n], q) && rows[n].event == event then 1 else 0)
            && |AllPlaces(rows, q)| == |AllPlaces(rows[..n], q)| + if Selected(rows[n], q) then 1 else 0
  {
    var n := |rows| - 1;
    assert Places(rows, q, event)
        == Places(rows[..n], q, event) + (if Selected(rows[n], q) && rows[n].event == event then {n} else {});
    assert AllPlaces(rows, q) == AllPlaces(rows[..n], q) + (if Selected(rows[n], q) then {n} else {});
  }

  /** The four columns of the view's SELECT: which events each of them counts. */
  ghost predicate CountsEvents(c: Counts, rows: seq<EventRow>, q: Group -> bool) {
    && c.completed == |Places(rows, q, "task_completed")|
    && c.abandoned == |Places(rows, q, "task_abandoned")|
    && c.ended == c.completed + c.abandoned + |Places(rows, q, "task_failed")|
    && c.events == |AllPlaces(rows, q)|
  }

  lemma {:induction false} OneMoreCounted(row: EventRow, q: Group -> bool, rest: Counts, c: Counts)
    requires c == if q(GroupOf(KeyOf(row))) then Plus(rest, Contribution(KeyOf(row))) else rest
    ensures c.completed == rest.completed + (if Selected(row, q) && row.event == "task_completed" then 1 else 0)
    ensures c.abandoned == rest.abandoned + (if Selected(row, q) && row.event == "task_abandoned" then 1 else 0)
    ensures c.ended == rest.ended + (c.completed - rest.completed) + (c.abandoned - rest.abandoned)
                       + (if Selected(row, q) && row.event == "task_failed" then 1 else 0)
    ensures c.events == rest.events + (if Selected(row, q) then 1 else 0)
  {
    assert "task_completed"[5] == 'c' && "task_abandoned"[5] == 'a' && "task_failed"[5] == 'f';
  }

  lemma {:induction false} TallyCountsEvents(rows: seq<EventRow>, q: Group -> bool)
    ensures CountsEvents(Tally(rows, q), rows, q)
  {
    if rows == [] {
      assert Places(rows, q, "task_completed") == {} && Places(rows, q, "task_abandoned") == {};
      assert Places(rows, q, "task_failed") == {} && AllPlaces(rows, q) == {};
    } else {
      var n := |rows| - 1;
      TallyCountsEvents(rows[..n], q);
      OneMoreCounted(rows[n], q, Tally(rows[..n], q), Tally(rows, q));
      PlacesOneMore(rows, q, "task_completed");
      PlacesOneMore(rows, q, "task_abandoned");
      PlacesOneMore(rows, q, "task_failed");
    }
  }

  /** What the view makes of an inserted block, for any selection of groups: read off the rows' events. */
  lemma {:induction false} ViewCountsEvents(rows: seq<EventRow>, q: Group -> bool)
    ensures CountsEvents(Total(ViewOf(rows), q), rows, q)
  {
    ViewTotal(rows, q);
    TallyCountsEvents(rows, q);
  }

  /* ---------------- tables and the steps that change them ---------------- */

  /**
   * The events table and its rollup. `tokens` and `viewTokens` are the batch tokens inside the
   * deduplication window of each; a token is a hash of the whole batch, modelled as the batch. `accepted`
   * and `viewed` are the histories of rows each took in, less what was deleted since.
   */
  datatype Table = Table(
    rows: seq<EventRow>,
    tokens: set<seq<EventRow>>,
    accepted: seq<EventRow>,
    rollups: seq<Rollup>,
    viewTokens: set<seq<EventRow>>,
    viewed: seq<EventRow>)

  const EMPTY := Table([], {}, [], [], {}, [])

  /**
   * An insert is acknowledged, or it throws after any part of the batch has landed in the events table
   * and any part has reached the rollup.
   */
  datatype Attempt = Acknowledged | Failed(landed: set<nat>, viewed: set<nat>)

  function Landed(batch: seq<EventRow>, positions: set<nat>): (r: seq<EventRow>)
    ensures forall x :: x in r ==> x in batch
  {
    if batch == [] then []
    else
      var n := |batch| - 1;
      if n in positions then Landed(batch[..n], positions) + [batch[n]] else Landed(batch[..n], positions)
  }

  /** The events table skips a batch whose token is in its window. */
  function Store(t: Table, batch: seq<EventRow>, part: seq<EventRow>): Table {
    if batch in t.tokens then t
    else
      t.(rows := t.rows + part, accepted := t.accepted + part,
         tokens := if part == batch then t.tokens + {batch} else t.tokens)
  }

  /** So does the rollup, with a window of its own: deduplicate_blocks_in_dependent_materialized_views. */
  function View(t: Table, batch: seq<EventRow>, part: seq<EventRow>): Table {
    if batch in t.viewTokens then t
    else
      t.(rollups := t.rollups + ViewOf(part), viewed := t.viewed + part,
         viewTokens := if part == batch then t.viewTokens + {batch} else t.viewTokens)
  }

  /** insertRows: an empty batch is no insert. */
  function Insert(t: Table, batch: seq<EventRow>, attempt: Attempt): Table {
    if batch == [] then t
    else
      match attempt
      case Acknowledged => View(Store(t, batch, batch), batch, batch)
      case Failed(landed, viewed) => View(Store(t, batch, Landed(batch, landed)), batch, Landed(batch, viewed))
  }

  /** A merge drops a row when a later row of the merged parts has its key. */
  predicate CanDrop(t: Table, i: nat) {
    i < |t.rows| && exists j | i < j < |t.rows| :: KeyOf(t.rows[j]) == KeyOf(t.rows[i])
  }

  function DropRow(t: Table, i: nat): Table
    requires i < |t.rows|
  {
    t.(rows := t.rows[..i] + t.rows[i + 1..])
  }

  /** A merge re-sorts the parts, so rows with different keys may change places. */
  predicate CanSwap(t: Table, i: nat) {
    i + 1 < |t.rows| && KeyOf(t.rows[i]) != KeyOf(t.rows[i + 1])
  }

  function SwapRows(t: Table, i: nat): Table
    requires i + 1 < |t.rows|
  {
    t.(rows := t.rows[..i] + [t.rows[i + 1], t.rows[i]] + t.rows[i + 2..])
  }

  predicate CanSum(t: Table, i: nat, j: nat) {
    i < j < |t.rollups| && t.rollups[i].group == t.rollups[j].group
  }

  /** SummingMergeTree: two rows of one group become one row with their sum. */
  function SumRollups(t: Table, i: nat, j: nat): Table
    requires CanSum(t, i, j)
  {
    var sum := Rollup(t.rollups[i].group, Plus(t.rollups[i].counts, t.rollups[j].counts));
    t.(rollups := t.rollups[..i] + [sum] + t.rollups[i + 1..j] + t.rollups[j + 1..])
  }

  /** The first command of deleteTenantEvents, and the second. */
  function DeleteEvents(t: Table, tenantId: string): Table {
    var other := OfOthers(tenantId);
    t.(rows := Keep(t.rows, other), accepted := Keep(t.accepted, other))
  }

  function DeleteRollups(t: Table, tenantId: string): Table {
    t.(rollups := KeepRollups(t.rollups, tenantId), viewed := Keep(t.viewed, OfOthers(tenantId)))
  }

  function OfOthers(tenantId: string): EventRow -> bool {
    (r: EventRow) => r.tenantId != tenantId
  }

  function KeepRollups(rollups: seq<Rollup>, tenantId: string): seq<Rollup> {
    if rollups == [] then []
    else
      var n := |rollups| - 1;
      if rollups[n].group.tenantId != tenantId then KeepRollups(rollups[..n], tenantId) + [rollups[n]]
      else KeepRollups(rollups[..n], tenantId)
  }

  datatype Op =
    | OpInsert(batch: seq<EventRow>, attempt: Attempt)
    | OpDrop(i: nat)
    | OpSwap(i: nat)
    | OpSum(i: nat, j: nat)
    | OpForget(token: seq<EventRow>)  // the events table's window moves on
    | OpForgetViewed(token: seq<EventRow>)  // the rollup's window does
    | OpDeleteEvents(tenantId: string)
    | OpDeleteRollups(tenantId: string)

  function Step(t: Table, op: Op): Table {
    match op
    case OpInsert(batch, attempt) => Insert(t, batch, attempt)
    case OpDrop(i) => if CanDrop(t, i) then DropRow(t, i) else t
    case OpSwap(i) => if CanSwap(t, i) then SwapRows(t, i) else t
    case OpSum(i, j) => if CanSum(t, i, j) then SumRollups(t, i, j) else t
    case OpForget(token) => t.(tokens := t.tokens - {token})
    case OpForgetViewed(token) => t.(viewTokens := t.viewTokens - {token})
    case OpDeleteEvents(tenantId) => DeleteEvents(t, tenantId)
    case OpDeleteRollups(tenantId) => DeleteRollups(t, tenantId)
  }

  function Run(ops: seq<Op>): Table {
    if ops == [] then EMPTY else Step(Run(ops[..|ops| - 1]), ops[|ops| - 1])
  }

  /* ---------------- what every run keeps ---------------- */

  /** The read-side facts: FINAL is the FINAL of what was accepted, the rollups sum to what was viewed. */
  ghost predicate Valid(t: Table) {
    && Final(t.rows) == Final(t.accepted)
    && forall q :: Total(t.rollups, q) == Tally(t.viewed, q)
  }

  lemma {:induction false} StoreKeepsValid(t: Table, batch: seq<EventRow>, part: seq<EventRow>)
    requires Valid(t)
    ensures Valid(Store(t, batch, part))
  {
    FinalConcat(t.rows, part);
    FinalConcat(t.accepted, part);
  }

  lemma {:induction false} ViewKeepsValid(t: Table, batch: seq<EventRow>, part: seq<EventRow>)
    requires Valid(t)
    ensures Valid(View(t, batch, part))
  {
    forall q ensures Total(t.rollups + ViewOf(part), q) == Tally(t.viewed + part, q) {
      TotalConcat(t.rollups, ViewOf(part), q);
      ViewTotal(part, q);
      TallyConcat(t.viewed, part, q);
    }
  }

  lemma {:induction false} InsertKeepsValid(t: Table, batch: seq<EventRow>, attempt: Attempt)
    requires Valid(t)
    ensures Valid(Insert(t, batch, attempt))
  {
    var stored := if attempt.Acknowledged? then batch else Landed(batch, attempt.landed);
    var viewed := if attempt.Acknowledged? then batch else Landed(batch, attempt.viewed);
    StoreKeepsValid(t, batch, stored);
    ViewKeepsValid(Store(t, batch, stored), batch, viewed);
  }

  lemma {:induction false} FinalWithoutShadowed(a: seq<EventRow>, x: EventRow, b: seq<EventRow>)
    requires KeyOf(x) in Final(b)
    ensures Final(a + [x] + b) == Final(a + b)
  {
    FinalConcat(a + [x], b);
    FinalConcat(a, [x]);
    FinalConcat(a, b);
    FinalKeys([x]);
  }

  lemma {:induction false} KeyIsShownLater(rows: seq<EventRow>, i: nat, j: nat)
    requires i < j < |rows| && KeyOf(rows[j]) == KeyOf(rows[i])
    ensures KeyOf(rows[i]) in Final(rows[i + 1..])
  {
    var b := rows[i + 1..];
    assert b[j - i - 1] == rows[j];
    FinalKeys(b);
    assert rows[j] in b;
  }

  lemma {:induction false} DropKeepsFinal(t: Table, i: nat)
    requires CanDrop(t, i)
    ensures Final(DropRow(t, i).rows) == Final(t.rows)
  {
    var j :| i < j < |t.rows| && KeyOf(t.rows[j]) == KeyOf(t.rows[i]);
    KeyIsShownLater(t.rows, i, j);
    assert t.rows == t.rows[..i] + [t.rows[i]] + t.rows[i + 1..];
    FinalWithoutShadowed(t.rows[..i], t.rows[i], t.rows[i + 1..]);
  }

  lemma {:induction false} FinalOfPair(x: EventRow, y: EventRow)
    ensures Final([x, y]) == map[KeyOf(x) := x][KeyOf(y) := y]
  {
    assert [x, y][..1] == [x] && [x][..0] == [];
    assert Final([x]) == map[KeyOf(x) := x];
  }

  lemma {:induction false} FinalSwapped(a: seq<EventRow>, x: EventRow, y: EventRow, b: seq<EventRow>)
    requires KeyOf(x) != KeyOf(y)
    ensures Final(a + [x, y] + b) == Final(a + [y, x] + b)
  {
    FinalOfPair(x, y);
    FinalOfPair(y, x);
    FinalAround(a, [x, y], [y, x], b);
  }

  lemma {:induction false} FinalAround(a: seq<EventRow>, m: seq<EventRow>, m': seq<EventRow>, b: seq<EventRow>)
    requires Final(m) == Final(m')
    ensures Final(a + m + b) == Final(a + m' + b)
  {
    FinalConcat(a + m, b);
    FinalConcat(a, m);
    FinalConcat(a + m', b);
    FinalConcat(a, m');
  }

  lemma {:induction false} SwapKeepsFinal(t: Table, i: nat)
    requires CanSwap(t, i)
    ensures Final(SwapRows(t, i).rows) == Final(t.rows)
  {
    assert t.rows == t.rows[..i] + [t.rows[i], t.rows[i + 1]] + t.rows[i + 2..];
    FinalSwapped(t.rows[..i], t.rows[i], t.rows[i + 1], t.rows[i + 2..]);
  }

  lemma {:induction false} TotalOfOne(r: Rollup, q: Group -> bool)
    ensures Total([r], q) == if q(r.group) then r.counts else ZERO
  {
    assert [r][..0] == [];
  }

  lemma {:induction false} SumKeepsTotals(t: Table, i: nat, j: nat, q: Group -> bool)
    requires CanSum(t, i, j)
    ensures Total(SumRollups(t, i, j).rollups, q) == Total(t.rollups, q)
  {
    var a, x, b, y, c := t.rollups[..i], t.rollups[i], t.rollups[i + 1..j], t.rollups[j], t.rollups[j + 1..];
    var sum := Rollup(x.group, Plus(x.counts, y.counts));
    assert t.rollups == a + [x] + b + [y] + c;
    TotalConcat(a + [x] + b + [y], c, q);
    TotalConcat(a + [x] + b, [y], q);
    TotalConcat(a + [x], b, q);
    TotalConcat(a, [x], q);
    TotalConcat(a + [sum] + b, c, q);
    TotalConcat(a + [sum], b, q);
    TotalConcat(a, [sum], q);
    TotalOfOne(x, q);
    TotalOfOne(y, q);
    TotalOfOne(sum, q);
  }

  function Spared(q: Group -> bool, tenantId: string): Group -> bool {
    (g: Group) => q(g) && g.tenantId != tenantId
  }

  lemma {:induction false} DeletedTotals(rollups: seq<Rollup>, tenantId: string, q: Group -> bool)
    ensures Total(KeepRollups(rollups, tenantId), q) == Total(rollups, Spared(q, tenantId))
  {
    if rollups != [] {
      var n := |rollups| - 1;
      DeletedTotals(rollups[..n], tenantId, q);
      if rollups[n].group.tenantId != tenantId {
        var out := KeepRollups(rollups[..n], tenantId) + [rollups[n]];
        assert out[..|out| - 1] == KeepRollups(rollups[..n], tenantId);
      }
    }
  }

  lemma {:induction false} DeletedTally(rows: seq<EventRow>, tenantId: string, p: EventRow -> bool, q: Group -> bool)
    requires forall r :: p(r) <==> r.tenantId != tenantId
    ensures Tally(Keep(rows, p), q) == Tally(rows, Spared(q, tenantId))
  {
    if rows != [] {
      var n := |rows| - 1;
      DeletedTally(rows[..n], tenantId, p, q);
      if p(rows[n]) {
        var out := Keep(rows[..n], p) + [rows[n]];
        assert Keep(rows, p) == out && out[..|out| - 1] == Keep(rows[..n], p);
      }
    }
  }

  lemma {:induction false} DeletesKeepValid(t: Table, tenantId: string)
    requires Valid(t)
    ensures Valid(DeleteEvents(t, tenantId)) && Valid(DeleteRollups(t, tenantId))
  {
    var other := OfOthers(tenantId);
    FilterCommutesWithFinal(t.rows, other);
    FilterCommutesWithFinal(t.accepted, other);
    forall q ensures Total(KeepRollups(t.rollups, tenantId), q) == Tally(Keep(t.viewed, other), q) {
      DeletedTotals(t.rollups, tenantId, q);
      DeletedTally(t.viewed, tenantId, other, q);
    }
  }

  lemma {:induction false} StepKeepsValid(t: Table, op: Op)
    requires Valid(t)
    ensures Valid(Step(t, op))
  {
    match op
    case OpInsert(batch, attempt) =>
      InsertKeepsValid(t, batch, attempt);
    case OpDrop(i) =>
      if CanDrop(t, i) { DropKeepsFinal(t, i); }
    case OpSwap(i) =>
      if CanSwap(t, i) { SwapKeepsFinal(t, i); }
    case OpSum(i, j) =>
      if CanSum(t, i, j) {
        forall q ensures Total(SumRollups(t, i, j).rollups, q) == Total(t.rollups, q) {
          SumKeepsTotals(t, i, j, q);
        }
      }
    case OpForget(_) =>
    case OpForgetViewed(_) =>
    case OpDeleteEvents(tenantId) => DeletesKeepValid(t, tenantId);
    case OpDeleteRollups(tenantId) => DeletesKeepValid(t, tenantId);
  }

  lemma {:induction false} RunIsValid(ops: seq<Op>)
    ensures Valid(Run(ops))
  {
    if ops != [] {
      RunIsValid(ops[..|ops| - 1]);
      StepKeepsValid(Run(ops[..|ops| - 1]), ops[|ops| - 1]);
    }
  }

  /** So in every reachable state: the rollup's counters are those of the rows it took in. */
  lemma {:induction false} RollupCountsEvents(ops: seq<Op>, q: Group -> bool)
    ensures CountsEvents(Total(Run(ops).rollups, q), Run(ops).viewed, q)
  {
    RunIsValid(ops);
    TallyCountsEvents(Run(ops).viewed, q);
  }

  /** The count a raw-event metric computes: keys FINAL shows that satisfy p. */
  function RawCount(t: Table, p: Key -> bool): nat {
    |set k | k in Final(t.rows).Keys && p(k)|
  }

  /** Counted keys of the events table that never reached the rollup, or were deleted from it only. */
  function Missing(t: Table, p: Key -> bool): set<Key> {
    Distinct(t.accepted, p) - Distinct(t.viewed, p)
  }

  /** Counted keys of the rollup that are not in the events table. */
  function Stale(t: Table, p: Key -> bool): set<Key> {
    Distinct(t.viewed, p) - Distinct(t.accepted, p)
  }

  /** How often counted keys were rolled up again. */
  function Repeats(t: Table, p: Key -> bool): int {
    Number(t.viewed, p) - |Distinct(t.viewed, p)|
  }

  lemma {:induction false} SplitSizes<T>(a: set<T>, b: set<T>)
    ensures |a| + |b - a| == |b| + |a - b|
  {
    assert a == a * b + (a - b);
    assert b == a * b + (b - a);
  }

  lemma {:induction false} RawIsDistinct(t: Table, p: Key -> bool)
    requires Valid(t)
    ensures RawCount(t, p) == |Distinct(t.accepted, p)|
  {
    FinalKeys(t.accepted);
    assert (set k | k in Final(t.rows).Keys && p(k)) == Distinct(t.accepted, p);
  }

  /** What a counter of the rollup makes of the keys satisfying p, against what the raw rows make of them. */
  ghost predicate Drifts(t: Table, p: Key -> bool, counter: nat) {
    && counter + |Missing(t, p)| == RawCount(t, p) + |Stale(t, p)| + Repeats(t, p)
    && 0 <= Repeats(t, p) && (Repeats(t, p) == 0 <==> NoRepeat(t.viewed, p))
  }

  lemma {:induction false} CounterDrifts(t: Table, p: Key -> bool)
    requires Valid(t)
    ensures Drifts(t, p, Number(t.viewed, p))
  {
    RawIsDistinct(t, p);
    DistinctAtMostNumber(t.viewed, p);
    SplitSizes(Distinct(t.accepted, p), Distinct(t.viewed, p));
  }

  lemma {:induction false} TotalDrifts(t: Table, q: Group -> bool, c: Counter)
    requires Valid(t)
    ensures Drifts(t, Counted(q, c), c.Of(Total(t.rollups, q)))
  {
    TallyIsNumber(t.viewed, q, c);
    CounterDrifts(t, Counted(q, c));
  }

  /**
   * After any history of inserts, failed and repeated inserts, evicted tokens, merges and deletions,
   * finished or not, each counter of the rollup is off the deduplicated raw count by exactly this much:
   * up by the keys rolled up again and those the events table has not, down by those the rollup has not.
   */
  lemma {:induction false} RollupDriftExactly(ops: seq<Op>, q: Group -> bool, c: Counter)
    ensures Drifts(Run(ops), Counted(q, c), c.Of(Total(Run(ops).rollups, q)))
  {
    RunIsValid(ops);
    TotalDrifts(Run(ops), q, c);
  }

  /** The counter is never short, and exact exactly if nothing counted is stale or was rolled up again. */
  ghost predicate NeverShort(t: Table, p: Key -> bool, counter: nat) {
    && RawCount(t, p) <= counter
    && (counter == RawCount(t, p) <==> Stale(t, p) == {} && NoRepeat(t.viewed, p))
  }

  lemma {:induction false} NothingMissing(t: Table, p: Key -> bool, counter: nat)
    requires Drifts(t, p, counter) && Missing(t, p) == {}
    ensures NeverShort(t, p, counter)
  {
  }

  /** compileDailyRollup's row for one day: the tenant's groups of that day, over all task types. */
  function DayOfTenant(tenantId: string, day: int): Group -> bool {
    (g: Group) => g.tenantId == tenantId && g.day == day
  }

  /**
   * Each counter of a tenant's daily read is off the raw count of that whole day by its drift; wherever
   * the rollup took in every key the events table did, it is at least that count, and equals it exactly
   * when none of the counted events was rolled up twice or is gone from the events table.
   */
  lemma {:induction false} DailyRollupExactly(ops: seq<Op>, tenantId: string, day: int, c: Counter)
    ensures var (t, q) := (Run(ops), DayOfTenant(tenantId, day));
            && Drifts(t, Counted(q, c), c.Of(Total(t.rollups, q)))
            && (Missing(t, Counted(q, c)) == {} ==> NeverShort(t, Counted(q, c), c.Of(Total(t.rollups, q))))
  {
    var q := DayOfTenant(tenantId, day);
    RollupDriftExactly(ops, q, c);
    if Missing(Run(ops), Counted(q, c)) == {} {
      NothingMissing(Run(ops), Counted(q, c), c.Of(Total(Run(ops).rollups, q)));
    }
  }

  /** A tenant's daily read counts the rows of the tenant whose timestamp falls on that day, and no other. */
  lemma {:induction false} DailyReadCountsEvents(ops: seq<Op>, tenantId: string, day: int, i: nat)
    requires i < |Run(ops).viewed|
    ensures CountsEvents(Total(Run(ops).rollups, DayOfTenant(tenantId, day)), Run(ops).viewed,
                         DayOfTenant(tenantId, day))
    ensures var row := Run(ops).viewed[i];
            i in AllPlaces(Run(ops).viewed, DayOfTenant(tenantId, day))
            <==> row.tenantId == tenantId && day * 86_400_000 <= row.timestamp < (day + 1) * 86_400_000
  {
    RollupCountsEvents(ops, DayOfTenant(tenantId, day));
  }

  /** No insert fails between the events table and the rollup, and the rollup is not deleted from. */
  predicate Whole(op: Op) {
    (op.OpInsert? && op.attempt.Failed? ==> op.attempt.landed <= op.attempt.viewed) && !op.OpDeleteRollups?
  }

  /** The rollup took in whatever the events table did, and whatever its tokens stand for. */
  ghost predicate Covered(t: Table) {
    && (forall r <- t.accepted :: r in t.viewed)
    && (forall b <- t.viewTokens, r <- b :: r in t.viewed)
  }

  lemma {:induction false} MoreLands(batch: seq<EventRow>, fewer: set<nat>, more: set<nat>)
    requires fewer <= more
    ensures forall r <- Landed(batch, fewer) :: r in Landed(batch, more)
  {
    if batch != [] {
      MoreLands(batch[..|batch| - 1], fewer, more);
    }
  }

  lemma {:induction false} InsertCovers(t: Table, batch: seq<EventRow>, stored: seq<EventRow>, viewed: seq<EventRow>)
    requires Covered(t)
    requires forall r <- stored :: r in viewed && r in batch
    ensures Covered(View(Store(t, batch, stored), batch, viewed))
  {
  }

  lemma {:induction false} WholeStepCovers(t: Table, op: Op)
    requires Covered(t) && Whole(op)
    ensures Covered(Step(t, op))
  {
    match op
    case OpInsert(batch, attempt) =>
      if attempt.Failed? {
        MoreLands(batch, attempt.landed, attempt.viewed);
        InsertCovers(t, batch, Landed(batch, attempt.landed), Landed(batch, attempt.viewed));
      } else {
        InsertCovers(t, batch, batch, batch);
      }
    case OpDrop(_) =>
    case OpSwap(_) =>
    case OpSum(_, _) =>
    case OpForget(_) =>
    case OpForgetViewed(_) =>
    case OpDeleteEvents(_) =>
  }

  lemma {:induction false} WholeRunCovers(ops: seq<Op>)
    requires forall i | 0 <= i < |ops| :: Whole(ops[i])
    ensures Covered(Run(ops))
  {
    if ops != [] {
      WholeRunCovers(ops[..|ops| - 1]);
      WholeStepCovers(Run(ops[..|ops| - 1]), ops[|ops| - 1]);
    }
  }

  /**
   * Where no insert fails between the two tables and the rollup is not deleted from, no counter ever
   * undercounts, through failed and repeated inserts, tokens leaving either window and merges.
   */
  lemma {:induction false} RollupNeverUndercounts(ops: seq<Op>, q: Group -> bool, c: Counter)
    requires forall i | 0 <= i < |ops| :: Whole(ops[i])
    ensures NeverShort(Run(ops), Counted(q, c), c.Of(Total(Run(ops).rollups, q)))
  {
    WholeRunCovers(ops);
    RollupDriftExactly(ops, q, c);
    CoveredIsNeverShort(Run(ops), Counted(q, c), c.Of(Total(Run(ops).rollups, q)));
  }

  lemma {:induction false} CoveredIsNeverShort(t: Table, p: Key -> bool, counter: nat)
    requires Covered(t) && Drifts(t, p, counter)
    ensures NeverShort(t, p, counter)
  {
    assert Missing(t, p) == {};
    NothingMissing(t, p, counter);
  }

  /** An insert that fails between the events table and the rollup leaves the rollup short. */
  lemma {:induction false} HalfLandedInsertUndercounts(row: EventRow, landed: set<nat>, viewed: set<nat>)
    requires 0 in landed && 0 !in viewed
    ensures var t := Run([OpInsert([row], Failed(landed, viewed))]);
            && Total(t.rollups, (g: Group) => true).events == 0
            && RawCount(t, (k: Key) => true) == 1
  {
    var ops := [OpInsert([row], Failed(landed, viewed))];
    assert ops[..0] == [] && [row][..0] == [];
    assert Landed([row], landed) == [row] && Landed([row], viewed) == [];
    var t := Run(ops);
    var stored := Store(EMPTY, [row], [row]);
    assert stored.accepted == [row];
    assert View(stored, [row], []).rollups == [];
    assert Insert(EMPTY, [row], Failed(landed, viewed)) == View(stored, [row], []);
    assert Run(ops[..|ops| - 1]) == EMPTY;
    assert t == Insert(EMPTY, [row], Failed(landed, viewed));
    RunIsValid(ops);
    RawIsDistinct(t, (k: Key) => true);
    assert Distinct(t.accepted, (k: Key) => true) == {KeyOf(row)};
  }

  /** In every reachable table, and for every metric window, the bounded read is the full read. */
  lemma {:induction false} BoundedReadRefinesFullRead(ops: seq<Op>, month: int -> int, tenantId: string, from: int,
                                                      to: int)
    ensures var scoped := (r: EventRow) => r.tenantId == tenantId && from <= r.timestamp < to;
            var t := Run(ops);
            && BoundedFinal(t.rows, MonthPartition(month)) == FullFinal(t.accepted)
            && BoundedFinal(Keep(t.rows, scoped), MonthPartition(month))
               == set r | r in FullFinal(t.accepted) && scoped(r)
  {
    var scoped := (r: EventRow) => r.tenantId == tenantId && from <= r.timestamp < to;
    var t := Run(ops);
    RunIsValid(ops);
    BoundedFinalIsFull(t.rows, MonthPartition(month));
    BoundedFinalIsFull(Keep(t.rows, scoped), MonthPartition(month));
    FilterCommutesWithFinal(t.rows, scoped);
    var m := Restrict(Final(t.rows), scoped);
    forall r ensures r in m.Values <==> r in Final(t.rows).Values && scoped(r) {
      if r in Final(t.rows).Values && scoped(r) {
        var k :| k in Final(t.rows) && Final(t.rows)[k] == r;
        assert m[k] == r;
      }
    }
  }

  lemma {:induction false} RetryStores(t: Table, batch: seq<EventRow>, part: seq<EventRow>)
    requires batch !in t.tokens
    ensures var once := Store(t, batch, part);
            Store(once, batch, batch).accepted == t.accepted + batch <==> part == batch || part == []
  {
    var again := Store(Store(t, batch, part), batch, batch);
    if part != batch {
      assert again.accepted == t.accepted + part + batch;
      assert again.accepted == t.accepted + batch ==> |part| == 0;
      assert part == [] ==> t.accepted + part == t.accepted;
    }
  }

  lemma {:induction false} RetryViews(t: Table, batch: seq<EventRow>, part: seq<EventRow>)
    requires batch !in t.viewTokens
    ensures var once := View(t, batch, part);
            View(once, batch, batch).viewed == t.viewed + batch <==> part == batch || part == []
  {
    var again := View(View(t, batch, part), batch, batch);
    if part != batch {
      assert again.viewed == t.viewed + part + batch;
      assert again.viewed == t.viewed + batch ==> |part| == 0;
      assert part == [] ==> t.viewed + part == t.viewed;
    }
  }

  lemma {:induction false} SidesAreApart(t: Table, batch: seq<EventRow>, part: seq<EventRow>)
    ensures var (s, v) := (Store(t, batch, part), View(t, batch, part));
            && s.viewed == t.viewed && s.viewTokens == t.viewTokens && s.rollups == t.rollups
            && v.accepted == t.accepted && v.tokens == t.tokens && v.rows == t.rows
  {
  }

  /**
   * Retrying a failed insert of a new batch takes each of its rows in once exactly when the failed
   * attempt landed all of it, which leaves the token, or none of it; and the same for the rollup.
   */
  lemma {:induction false} RetryAcceptsOnceExactly(t: Table, batch: seq<EventRow>, landed: set<nat>, viewed: set<nat>)
    requires batch !in t.tokens && batch !in t.viewTokens
    ensures var retried := Insert(Insert(t, batch, Failed(landed, viewed)), batch, Acknowledged);
            && (retried.accepted == t.accepted + batch
                <==> Landed(batch, landed) == batch || Landed(batch, landed) == [])
            && (retried.viewed == t.viewed + batch
                <==> Landed(batch, viewed) == batch || Landed(batch, viewed) == [])
            && forall r <- batch :: r in retried.rows && r in retried.viewed
  {
    if batch != [] {
      var stored, seen := Landed(batch, landed), Landed(batch, viewed);
      var first := Store(t, batch, stored);
      var failed := View(first, batch, seen);
      SidesAreApart(t, batch, stored);
      SidesAreApart(first, batch, seen);
      SidesAreApart(failed, batch, batch);
      RetryStores(t, batch, stored);
      RetryViews(first, batch, seen);
    }
  }

  /* ---------------- erasing a tenant ---------------- */

  /** What each command of deleteTenantEvents does: it may throw, with or without having deleted. */
  datatype Command = Done | Threw(deleted: bool)

  predicate Takes(c: Command) {
    c.Done? || c.deleted
  }

  /** deleteTenantEvents: the second command is only sent once the first has answered. */
  function DeleteTenant(t: Table, tenantId: string, events: Command, rollups: Command): Table {
    var first := if Takes(events) then DeleteEvents(t, tenantId) else t;
    if events.Done? && Takes(rollups) then DeleteRollups(first, tenantId) else first
  }

  function Erased(t: Table, tenantId: string): Table {
    DeleteRollups(DeleteEvents(t, tenantId), tenantId)
  }

  lemma {:induction false} KeepTwice(rows: seq<EventRow>, p: EventRow -> bool)
    ensures Keep(Keep(rows, p), p) == Keep(rows, p)
  {
    if rows != [] {
      var n := |rows| - 1;
      KeepTwice(rows[..n], p);
      if p(rows[n]) {
        var kept := Keep(rows[..n], p) + [rows[n]];
        assert kept[..|kept| - 1] == Keep(rows[..n], p);
      }
    }
  }

  lemma {:induction false} KeepRollupsTwice(rollups: seq<Rollup>, tenantId: string)
    ensures KeepRollups(KeepRollups(rollups, tenantId), tenantId) == KeepRollups(rollups, tenantId)
  {
    if rollups != [] {
      var n := |rollups| - 1;
      KeepRollupsTwice(rollups[..n], tenantId);
      if rollups[n].group.tenantId != tenantId {
        var kept := KeepRollups(rollups[..n], tenantId) + [rollups[n]];
        assert kept[..|kept| - 1] == KeepRollups(rollups[..n], tenantId);
      }
    }
  }

  lemma {:induction false} DeletedRollupsGone(rollups: seq<Rollup>, tenantId: string)
    ensures forall r <- KeepRollups(rollups, tenantId) :: r.group.tenantId != tenantId
    ensures forall r: Rollup :: r.group.tenantId != tenantId ==> (r in KeepRollups(rollups, tenantId) <==> r in rollups)
  {
    if rollups != [] {
      var n := |rollups| - 1;
      DeletedRollupsGone(rollups[..n], tenantId);
      assert rollups == rollups[..n] + [rollups[n]];
    }
  }

  /**
   * However an erasure was interrupted, running it again to the end leaves what one uninterrupted run
   * leaves: nothing of the tenant in either table, and everything of the others.
   */
  lemma {:induction false} ErasureResumes(t: Table, tenantId: string, events: Command, rollups: Command)
    ensures DeleteTenant(DeleteTenant(t, tenantId, events, rollups), tenantId, Done, Done) == Erased(t, tenantId)
    ensures forall r :: r in Erased(t, tenantId).rows <==> r in t.rows && r.tenantId != tenantId
    ensures forall r :: r in Erased(t, tenantId).rollups <==> r in t.rollups && r.group.tenantId != tenantId
  {
    KeepTwice(t.rows, OfOthers(tenantId));
    KeepTwice(t.accepted, OfOthers(tenantId));
    KeepTwice(t.viewed, OfOthers(tenantId));
    KeepRollupsTwice(t.rollups, tenantId);
    DeletedRollupsGone(t.rollups, tenantId);
  }

  /**
   * An erasure that throws after its first command leaves every one of the tenant's rolled-up keys stale:
   * no raw row, and the counters as they were.
   */
  lemma {:induction false} HalfErasedIsStale(ops: seq<Op>, tenantId: string, q: Group -> bool, c: Counter)
    requires forall g :: q(g) ==> g.tenantId == tenantId
    ensures var t := Run(ops);
            var half := DeleteTenant(t, tenantId, Done, Threw(false));
            && RawCount(half, Counted(q, c)) == 0
            && Total(half.rollups, q) == Total(t.rollups, q)
  {
    var t := Run(ops);
    RunIsValid(ops);
    DeletesKeepValid(t, tenantId);
    var half, p := DeleteEvents(t, tenantId), Counted(q, c);
    RawIsDistinct(half, p);
    assert forall r <- half.accepted :: GroupOf(KeyOf(r)).tenantId != tenantId;
    assert Distinct(half.accepted, p) == {};
  }

  /* ---------------- the tables as the client changes them ---------------- */

  class ClickHouse {
    var rows: seq<EventRow>
    var tokens: set<seq<EventRow>>
    var rollups: seq<Rollup>
    var viewTokens: set<seq<EventRow>>
    ghost var accepted: seq<EventRow>
    ghost var viewed: seq<EventRow>

    ghost function State(): Table
      reads this
    {
      Table(rows, tokens, accepted, rollups, viewTokens, viewed)
    }

    constructor ()
      ensures State() == EMPTY
    {
      rows, tokens, accepted, rollups, viewTokens, viewed := [], {}, [], [], {}, [];
    }

    method StorePart(batch: seq<EventRow>, part: seq<EventRow>)
      modifies this
      ensures State() == Store(old(State()), batch, part)
    {
      if batch !in tokens {
        rows := rows + part;
        accepted := accepted + part;
        if part == batch {
          tokens := tokens + {batch};
        }
      }
    }

    method ViewPart(batch: seq<EventRow>, part: seq<EventRow>)
      modifies this
      ensures State() == View(old(State()), batch, part)
    {
      if batch !in viewTokens {
        rollups := rollups + ViewOf(part);
        viewed := viewed + part;
        if part == batch {
          viewTokens := viewTokens + {batch};
        }
      }
    }

    /** Throws (ok is false) when the insert fails; part of the batch may have landed all the same. */
    method InsertRows(batch: seq<EventRow>, attempt: Attempt) returns (ok: bool)
      modifies this
      ensures State() == Insert(old(State()), batch, attempt)
      ensures ok <==> batch == [] || attempt.Acknowledged?
    {
      if batch == [] {
        return true;
      }
      ok := attempt.Acknowledged?;
      match attempt {
        case Acknowledged =>
          StorePart(batch, batch);
          ViewPart(batch, batch);
        case Failed(landed, viewed) =>
          StorePart(batch, Landed(batch, landed));
          ViewPart(batch, Landed(batch, viewed));
      }
    }

    /** deleteTenantEvents; an empty tenant id is refused before anything is deleted. */
    method DeleteTenantEvents(tenantId: string, first: Command, second: Command) returns (ok: bool)
      modifies this
      ensures ok <==> tenantId != "" && first.Done? && second.Done?
      ensures State() == if tenantId == "" then old(State()) else DeleteTenant(old(State()), tenantId, first, second)
      ensures ok ==> State() == Erased(old(State()), tenantId)
      ensures tenantId == "" || first.Threw? ==> rollups == old(rollups) && viewed == old(viewed)
    {
      if tenantId == "" {
        return false;
      }
      if Takes(first) {
        rows := Keep(rows, OfOthers(tenantId));
        accepted := Keep(accepted, OfOthers(tenantId));
      }
      if first.Threw? {
        return false;
      }
      if Takes(second) {
        rollups := KeepRollups(rollups, tenantId);
        viewed := Keep(viewed, OfOthers(tenantId));
      }
      ok := second.Done?;
    }
  }
}
