/**
 * Topic -> ClickHouse (packages/pipeline/src/redpanda.ts, startEventsConsumer).
 *
 * One partition: offsets are positions in one log. The environment is adversarial: an insert may throw
 * after any part of it landed in the events table and any part reached the rollup, the process may die
 * inside an insert, the dead-letter write may fail after writing any part, a commit may or may not take
 * effect, merges run at any time, and either deduplication window may forget any token.
 */
module Consumer {
  import opened Wrappers
  import opened Transform
  import opened Storage

  /** A topic message: no value, bytes that are not JSON, or a JSON document. */
  datatype Message = Blank | Garbage(text: string) | Doc(json: Document)

  datatype Cluster = Us | Eu

  datatype Config = Config(hasEu: bool, instant: string -> int)

  /** createResidencyRouter: unknown tags, and EU tags without an EU cluster, go to the default. */
  function Route(cfg: Config, residency: string): Cluster {
    if residency == "eu" && cfg.hasEu then Eu else Us
  }

  function Residency(m: Json): string {
    if Field(m, "residency").Some? && Field(m, "residency").value.Str? then Text(Field(m, "residency")) else "us"
  }

  datatype Reason = Unmappable | Unparsable | InsertFailed

  datatype Original = OfMessage(message: Message) | OfRow(row: EventRow)

  datatype DeadLetter = DeadLetter(reason: Reason, original: Original)

  /** Where one message must end up. */
  datatype Fate = Skipped | Stored(cluster: Cluster, row: EventRow) | Dead(letter: DeadLetter)

  function FateOf(cfg: Config, m: Message): Fate {
    match m
    case Blank => Skipped
    case Garbage(_) => Dead(DeadLetter(Unparsable, OfMessage(m)))
    case Doc(json) =>
      var row := ToRow(json, cfg.instant);
      if row.Some? then Stored(Route(cfg, Residency(json)), row.value)
      else Dead(DeadLetter(Unmappable, OfMessage(m)))
  }

  /**
   * What happens to a batch depends on its messages only through their fates, so everything below
   * holds for any classification; FateIn is the deployed one.
   */
  type Fates = Message -> Fate

  function FateIn(cfg: Config): Fates {
    (m: Message) => FateOf(cfg, m)
  }

  datatype Bucket = Bucket(cluster: Cluster, rows: seq<EventRow>)

  /** The Map of a batch's rows per cluster, in first-seen order. */
  function Place(buckets: seq<Bucket>, c: Cluster, row: EventRow): seq<Bucket> {
    if buckets == [] then [Bucket(c, [row])]
    else
      var n := |buckets| - 1;
      if buckets[n].cluster == c then buckets[n := Bucket(c, buckets[n].rows + [row])]
      else Place(buckets[..n], c, row) + [buckets[n]]
  }

  datatype Classified = Classified(buckets: seq<Bucket>, dead: seq<DeadLetter>)

  function Classify(fate: Fates, batch: seq<Message>): Classified {
    if batch == [] then Classified([], [])
    else
      var n := |batch| - 1;
      var rest := Classify(fate, batch[..n]);
      match fate(batch[n])
      case Skipped => rest
      case Stored(c, row) => rest.(buckets := Place(rest.buckets, c, row))
      case Dead(letter) => rest.(dead := rest.dead + [letter])
  }

  /* ---------------- one batch ---------------- */

  /** An insert call returns or throws (Storage.Attempt), or the process dies in it. */
  datatype Outcome = Returned(attempt: Attempt) | Died(landed: set<nat>, viewed: set<nat>) {
    /** What the insert amounts to, whether or not anyone heard of it. */
    function Effect(): Attempt {
      match this
      case Returned(attempt) => attempt
      case Died(landed, viewed) => Failed(landed, viewed)
    }
  }

  datatype Tries = Tries(first: Outcome, second: Outcome)

  datatype DlqOutcome = DlqAccepted | DlqRejected(written: set<nat>)

  /**
   * What the environment does to one batch. `commits`: the commit takes effect. `resumes`: after a
   * failed batch the consumer refetches from its own position rather than from the committed offset.
   */
  datatype Faults = Faults(us: Tries, eu: Tries, dlq: DlqOutcome, commits: bool, resumes: bool)

  function TriesFor(f: Faults, c: Cluster): Tries {
    match c
    case Us => f.us
    case Eu => f.eu
  }

  datatype Tables = Tables(us: Table, eu: Table) {
    function At(c: Cluster): Table {
      match c
      case Us => us
      case Eu => eu
    }

    function With(c: Cluster, t: Table): (r: Tables)
      ensures forall d :: r.At(d) == if d == c then t else At(d)
    {
      match c
      case Us => this.(us := t)
      case Eu => this.(eu := t)
    }
  }

  /** `position` is where the consumer reads next; `committed` is where a restart resumes. */
  datatype System = System(
    log: seq<Message>,
    position: nat,
    committed: nat,
    tables: Tables,
    dlq: seq<DeadLetter>,
    unmapped: nat,
    deadLettered: nat)

  const START := System([], 0, 0, Tables(EMPTY, EMPTY), [], 0, 0)

  datatype Phase = Phase(tables: Tables, dead: seq<DeadLetter>, alive: bool)

  function Tried(p: Phase, b: Bucket, attempt: Attempt): Phase {
    p.(tables := p.tables.With(b.cluster, Insert(p.tables.At(b.cluster), b.rows, attempt)))
  }

  function FailedLetters(rows: seq<EventRow>): (letters: seq<DeadLetter>)
    ensures forall d :: d in letters <==> d.reason == InsertFailed && d.original.OfRow? && d.original.row in rows
  {
    if rows == [] then []
    else FailedLetters(rows[..|rows| - 1]) + [DeadLetter(InsertFailed, OfRow(rows[|rows| - 1]))]
  }

  predicate Answers(b: Bucket, attempt: Attempt) {
    b.rows == [] || attempt.Acknowledged?
  }

  /** One cluster's insert, its single retry, and the dead letters of a second failure. */
  function InsertBucket(p: Phase, b: Bucket, tries: Tries): Phase {
    if !p.alive then p
    else
      var p1 := Tried(p, b, tries.first.Effect());
      match tries.first
      case Died(_, _) => p1.(alive := false)
      case Returned(first) =>
        if Answers(b, first) then p1
        else
          var p2 := Tried(p1, b, tries.second.Effect());
          match tries.second
          case Died(_, _) => p2.(alive := false)
          case Returned(second) =>
            if Answers(b, second) then p2 else p2.(dead := p2.dead + FailedLetters(b.rows))
  }

  function InsertAll(p: Phase, buckets: seq<Bucket>, f: Faults): Phase {
    if buckets == [] then p
    else
      var n := |buckets| - 1;
      InsertBucket(InsertAll(p, buckets[..n], f), buckets[n], TriesFor(f, buckets[n].cluster))
  }

  function LettersAt(letters: seq<DeadLetter>, written: set<nat>): (r: seq<DeadLetter>)
    ensures forall d :: d in r ==> d in letters
  {
    if letters == [] then []
    else
      var n := |letters| - 1;
      if n in written then LettersAt(letters[..n], written) + [letters[n]] else LettersAt(letters[..n], written)
  }

  /** After the inserts: dead letters, resolved offsets, commit; or a restart if the process died. */
  function Conclude(s: System, n: nat, p: Phase, f: Faults): System {
    if !p.alive then
      s.(tables := p.tables, position := s.committed, unmapped := 0, deadLettered := 0)
    else if p.dead != [] && f.dlq.DlqRejected? then
      s.(tables := p.tables,
         dlq := s.dlq + LettersAt(p.dead, f.dlq.written),
         position := if f.resumes then s.position else s.committed)
    else
      s.(tables := p.tables,
         dlq := s.dlq + p.dead,
         deadLettered := s.deadLettered + |p.dead|,
         position := s.position + n,
         committed := if f.commits then s.position + n else s.committed)
  }

  function Inserted(tables: Tables, sorted: Classified, f: Faults): Phase {
    InsertAll(Phase(tables, sorted.dead, true), sorted.buckets, f)
  }

  /** The next n messages once they are classified. */
  function Handled(s: System, n: nat, sorted: Classified, f: Faults): System {
    Conclude(s.(unmapped := s.unmapped + |sorted.dead|), n, Inserted(s.tables, sorted, f), f)
  }

  /** eachBatch over the next n messages. */
  function PollBatch(fate: Fates, s: System, n: nat, f: Faults): System
    requires s.position + n <= |s.log|
  {
    Handled(s, n, Classify(fate, s.log[s.position..s.position + n]), f)
  }

  /* ---------------- whole runs ---------------- */

  datatype Happening =
    | Produce(message: Message)
    | Poll(n: nat, faults: Faults)
    | Restart
    | Background(cluster: Cluster, op: Op)

  /** Merges and the moving deduplication windows; not inserts or deletions. */
  predicate Maintenance(op: Op) {
    op.OpDrop? || op.OpSwap? || op.OpSum? || op.OpForget? || op.OpForgetViewed?
  }

  function Next(fate: Fates, s: System, h: Happening): System {
    match h
    case Produce(m) => s.(log := s.log + [m])
    case Poll(n, f) => if s.position + n <= |s.log| then PollBatch(fate, s, n, f) else s
    case Restart => s.(position := s.committed, unmapped := 0, deadLettered := 0)
    case Background(c, op) =>
      if Maintenance(op) then s.(tables := s.tables.With(c, Step(s.tables.At(c), op))) else s
  }

  function History(fate: Fates, hs: seq<Happening>): System {
    if hs == [] then START else Next(fate, History(fate, hs[..|hs| - 1]), hs[|hs| - 1])
  }

  /** Both the events table and its rollup took the row in; or at least one of them did. */
  predicate Holds(t: Table, r: EventRow) {
    r in t.accepted && r in t.viewed
  }

  predicate Touches(t: Table, r: EventRow) {
    r in t.accepted || r in t.viewed
  }

  /** The message has its row in the cluster its residency routes to, or an entry on the dead-letter topic. */
  predicate Preserved(fate: Fates, s: System, m: Message) {
    match fate(m)
    case Skipped => true
    case Stored(c, row) =>
      Holds(s.tables.At(c), row) || DeadLetter(InsertFailed, OfRow(row)) in s.dlq
    case Dead(letter) => letter in s.dlq
  }

  ghost predicate RowHasSource(fate: Fates, log: seq<Message>, c: Cluster, r: EventRow) {
    exists o :: 0 <= o < |log| && fate(log[o]) == Stored(c, r)
  }

  /** A remembered token stands for a batch that was taken in. */
  ghost predicate Sound(t: Table) {
    && Valid(t)
    && (forall b <- t.tokens, r <- b :: r in t.accepted)
    && (forall b <- t.viewTokens, r <- b :: r in t.viewed)
  }

  ghost predicate TableHasSources(fate: Fates, log: seq<Message>, c: Cluster, t: Table) {
    && Sound(t)
    && forall r :: Touches(t, r) ==> RowHasSource(fate, log, c, r)
  }

  ghost predicate LetterHasSource(fate: Fates, log: seq<Message>, d: DeadLetter) {
    || (exists o :: 0 <= o < |log| && fate(log[o]) == Dead(d))
    || (d.reason == InsertFailed && d.original.OfRow? && exists c :: RowHasSource(fate, log, c, d.original.row))
  }

  ghost predicate Inv(fate: Fates, s: System) {
    && s.committed <= s.position <= |s.log|
    && (forall c :: TableHasSources(fate, s.log, c, s.tables.At(c)))
    && (forall o | 0 <= o < s.position :: Preserved(fate, s, s.log[o]))
    && (forall d <- s.dlq :: LetterHasSource(fate, s.log, d))
    && s.deadLettered <= |s.dlq|
  }

  /* ---------------- classification ---------------- */

  predicate InBuckets(buckets: seq<Bucket>, c: Cluster, r: EventRow) {
    exists b <- buckets :: b.cluster == c && r in b.rows
  }

  lemma {:induction false} PlaceAddsOne(buckets: seq<Bucket>, c: Cluster, row: EventRow)
    ensures forall c', r ::
              InBuckets(Place(buckets, c, row), c', r) <==> InBuckets(buckets, c', r) || (c' == c && r == row)
  {
    if buckets == [] {
      assert Bucket(c, [row]) in Place(buckets, c, row);
    } else {
      var n := |buckets| - 1;
      var init, last := buckets[..n], buckets[n];
      assert buckets == init + [last];
      if last.cluster == c {
        var out := init + [Bucket(c, last.rows + [row])];
        assert Place(buckets, c, row) == out;
        forall c', r
          ensures InBuckets(out, c', r) <==> InBuckets(buckets, c', r) || (c' == c && r == row)
        {
          assert Bucket(c, last.rows + [row]) in out;
          assert last in buckets;
        }
      } else {
        PlaceAddsOne(init, c, row);
        var out := Place(init, c, row) + [last];
        forall c', r
          ensures InBuckets(out, c', r)
              <==> InBuckets(Place(init, c, row), c', r) || (last.cluster == c' && r in last.rows)
        {
          assert last in out;
        }
        forall c', r
          ensures InBuckets(buckets, c', r) <==> InBuckets(init, c', r) || (last.cluster == c' && r in last.rows)
        {
          assert last in buckets;
        }
      }
    }
  }

  /** Classification drops nothing and invents nothing. */
  lemma {:induction false} ClassifyIsComplete(fate: Fates, batch: seq<Message>)
    ensures forall c, r ::
              InBuckets(Classify(fate, batch).buckets, c, r) <==> exists m <- batch :: fate(m) == Stored(c, r)
    ensures forall d :: d in Classify(fate, batch).dead <==> exists m <- batch :: fate(m) == Dead(d)
  {
    if batch != [] {
      var n := |batch| - 1;
      var init, last := batch[..n], batch[n];
      assert batch == init + [last];
      assert last in batch;
      ClassifyIsComplete(fate, init);
      var rest := Classify(fate, init);
      if fate(last).Stored? {
        PlaceAddsOne(rest.buckets, fate(last).cluster, fate(last).row);
      }
    }
  }

  /* ---------------- inserting ---------------- */

  lemma {:induction false} StoreGrows(t: Table, batch: seq<EventRow>, part: seq<EventRow>)
    requires Sound(t) && forall r <- part :: r in batch
    ensures var t' := Store(t, batch, part);
            && Sound(t') && t'.viewed == t.viewed
            && (forall r <- t.accepted :: r in t'.accepted)
            && (forall r <- t'.accepted :: r in t.accepted || r in batch)
            && (part == batch ==> forall r <- batch :: r in t'.accepted)
  {
    StoreKeepsValid(t, batch, part);
  }

  lemma {:induction false} ViewGrows(t: Table, batch: seq<EventRow>, part: seq<EventRow>)
    requires Sound(t) && forall r <- part :: r in batch
    ensures var t' := View(t, batch, part);
            && Sound(t') && t'.accepted == t.accepted
            && (forall r <- t.viewed :: r in t'.viewed)
            && (forall r <- t'.viewed :: r in t.viewed || r in batch)
            && (part == batch ==> forall r <- batch :: r in t'.viewed)
  {
    ViewKeepsValid(t, batch, part);
  }

  lemma {:induction false} InsertGrows(t: Table, batch: seq<EventRow>, attempt: Attempt)
    requires Sound(t)
    ensures var t' := Insert(t, batch, attempt);
            && Sound(t')
            && (forall r :: Holds(t, r) ==> Holds(t', r))
            && (forall r :: Touches(t', r) ==> Touches(t, r) || r in batch)
            && (attempt.Acknowledged? ==> forall r <- batch :: Holds(t', r))
  {
    if batch != [] {
      var stored := if attempt.Acknowledged? then batch else Landed(batch, attempt.landed);
      var viewed := if attempt.Acknowledged? then batch else Landed(batch, attempt.viewed);
      StoreGrows(t, batch, stored);
      ViewGrows(Store(t, batch, stored), batch, viewed);
    }
  }

  ghost predicate PhaseSound(p: Phase) {
    forall c :: Sound(p.tables.At(c))
  }

  ghost predicate PhaseGrows(p: Phase, q: Phase) {
    && (forall c, r :: Holds(p.tables.At(c), r) ==> Holds(q.tables.At(c), r))
    && (forall d <- p.dead :: d in q.dead)
  }

  /** Nothing appears that was not handed in. */
  ghost predicate PhaseFrom(p: Phase, q: Phase, buckets: seq<Bucket>) {
    && (forall c, r :: Touches(q.tables.At(c), r) ==> Touches(p.tables.At(c), r) || InBuckets(buckets, c, r))
    && (forall d <- q.dead :: d in p.dead
                           || (d.reason == InsertFailed && d.original.OfRow?
                               && exists c :: InBuckets(buckets, c, d.original.row)))
  }

  predicate Landing(p: Phase, c: Cluster, r: EventRow) {
    Holds(p.tables.At(c), r) || DeadLetter(InsertFailed, OfRow(r)) in p.dead
  }

  lemma {:induction false} TriedGrows(p: Phase, b: Bucket, attempt: Attempt)
    requires PhaseSound(p)
    ensures var q := Tried(p, b, attempt);
            && PhaseSound(q) && PhaseGrows(p, q) && PhaseFrom(p, q, [b])
            && q.dead == p.dead && q.alive == p.alive
            && (attempt.Acknowledged? ==> forall r <- b.rows :: Holds(q.tables.At(b.cluster), r))
  {
    InsertGrows(p.tables.At(b.cluster), b.rows, attempt);
    assert b in [b];
  }

  lemma {:induction false} PhaseCompose(p: Phase, q: Phase, r: Phase, buckets: seq<Bucket>)
    requires PhaseGrows(p, q) && PhaseFrom(p, q, buckets)
    requires PhaseGrows(q, r) && PhaseFrom(q, r, buckets)
    ensures PhaseGrows(p, r) && PhaseFrom(p, r, buckets)
  {
  }

  lemma {:induction false} InsertBucketLands(p: Phase, b: Bucket, tries: Tries)
    requires PhaseSound(p)
    ensures var q := InsertBucket(p, b, tries);
            && PhaseSound(q) && PhaseGrows(p, q) && PhaseFrom(p, q, [b])
            && (q.alive ==> p.alive && forall r <- b.rows :: Landing(q, b.cluster, r))
  {
    if p.alive {
      var p1 := Tried(p, b, tries.first.Effect());
      TriedGrows(p, b, tries.first.Effect());
      assert forall r <- b.rows :: InBuckets([b], b.cluster, r) by { assert b in [b]; }
      if tries.first.Returned? && !Answers(b, tries.first.attempt) {
        TriedGrows(p1, b, tries.second.Effect());
        PhaseCompose(p, p1, Tried(p1, b, tries.second.Effect()), [b]);
      }
    }
  }

  /** One dead letter a row, in order. */
  lemma {:induction false} LettersAreRows(rows: seq<EventRow>)
    ensures |FailedLetters(rows)| == |rows|
    ensures forall i | 0 <= i < |rows| :: FailedLetters(rows)[i] == DeadLetter(InsertFailed, OfRow(rows[i]))
  {
    if rows != [] {
      LettersAreRows(rows[..|rows| - 1]);
    }
  }

  /** The insert is tried again after it threw, and only then; a bucket is given up when both attempts threw. */
  lemma {:induction false} TriedTwiceAtMost(p: Phase, b: Bucket, first: Attempt, second: Outcome)
    requires p.alive && b.rows != []
    ensures var (t, q) := (p.tables.At(b.cluster), InsertBucket(p, b, Tries(Returned(first), second)));
            && (first == Acknowledged ==>
                  q.alive && q.dead == p.dead && q.tables.At(b.cluster) == Insert(t, b.rows, Acknowledged))
            && (first != Acknowledged ==>
                  && q.tables.At(b.cluster) == Insert(Insert(t, b.rows, first), b.rows, second.Effect())
                  && q.alive == second.Returned?
                  && (second == Returned(Acknowledged) ==> q.dead == p.dead)
                  && (second.Returned? && second.attempt != Acknowledged ==>
                        && p.dead <= q.dead && |q.dead| == |p.dead| + |b.rows|
                        && forall i | 0 <= i < |b.rows| ::
                             q.dead[|p.dead| + i] == DeadLetter(InsertFailed, OfRow(b.rows[i]))))
            && forall d | d != b.cluster :: q.tables.At(d) == p.tables.At(d)
  {
    LettersAreRows(b.rows);
  }

  lemma {:induction false} InsertAllLands(p: Phase, buckets: seq<Bucket>, f: Faults)
    requires PhaseSound(p)
    ensures var q := InsertAll(p, buckets, f);
            && PhaseSound(q) && PhaseGrows(p, q) && PhaseFrom(p, q, buckets)
            && (q.alive ==> p.alive && forall c, r :: InBuckets(buckets, c, r) ==> Landing(q, c, r))
  {
    if buckets != [] {
      var n := |buckets| - 1;
      var init, last := buckets[..n], buckets[n];
      assert buckets == init + [last];
      InsertAllLands(p, init, f);
      InsertBucketLands(InsertAll(p, init, f), last, TriesFor(f, last.cluster));
      forall c, r
        ensures InBuckets(buckets, c, r) <==> InBuckets(init, c, r) || InBuckets([last], c, r)
      {
        assert last in [last] && last in buckets;
      }
    }
  }

  /* ---------------- every run keeps the invariant ---------------- */

  lemma {:induction false} SourcesSurviveProduce(fate: Fates, s: System, m: Message)
    requires Inv(fate, s)
    ensures Inv(fate, s.(log := s.log + [m]))
  {
    var log := s.log + [m];
    assert forall o | 0 <= o < |s.log| :: log[o] == s.log[o];
    forall c, r | RowHasSource(fate, s.log, c, r)
      ensures RowHasSource(fate, log, c, r)
    {
      var o :| 0 <= o < |s.log| && fate(s.log[o]) == Stored(c, r);
      assert fate(log[o]) == Stored(c, r);
    }
    forall d | LetterHasSource(fate, s.log, d)
      ensures LetterHasSource(fate, log, d)
    {
      if o :| 0 <= o < |s.log| && fate(s.log[o]) == Dead(d) {
        assert fate(log[o]) == Dead(d);
      }
    }
  }

  lemma {:induction false} MaintenanceKeepsSources(fate: Fates, log: seq<Message>, c: Cluster, t: Table, op: Op)
    requires TableHasSources(fate, log, c, t) && Maintenance(op)
    ensures TableHasSources(fate, log, c, Step(t, op))
    ensures Step(t, op).accepted == t.accepted && Step(t, op).viewed == t.viewed
  {
    StepKeepsValid(t, op);
  }

  lemma {:induction false} BatchSources(fate: Fates, s: System, n: nat)
    requires s.position + n <= |s.log|
    ensures var sorted := Classify(fate, s.log[s.position..s.position + n]);
            && (forall c, r :: InBuckets(sorted.buckets, c, r) ==> RowHasSource(fate, s.log, c, r))
            && (forall d <- sorted.dead :: LetterHasSource(fate, s.log, d))
  {
    var batch := s.log[s.position..s.position + n];
    ClassifyIsComplete(fate, batch);
    forall m | m in batch
      ensures exists o :: 0 <= o < |s.log| && s.log[o] == m
    {
      var i :| 0 <= i < |batch| && batch[i] == m;
      assert s.log[s.position + i] == m;
    }
  }

  predicate Settled(fate: Fates, p: Phase, m: Message) {
    match fate(m)
    case Skipped => true
    case Stored(c, row) => Landing(p, c, row)
    case Dead(letter) => letter in p.dead
  }

  /** A batch whose inserts all returned has settled every one of its messages. */
  lemma {:induction false} BatchSettles(fate: Fates, tables: Tables, batch: seq<Message>, f: Faults, sorted: Classified,
                                        q: Phase, m: Message)
    requires PhaseSound(Phase(tables, sorted.dead, true))
    requires sorted == Classify(fate, batch) && q == Inserted(tables, sorted, f)
    requires q.alive && m in batch
    ensures Settled(fate, q, m)
  {
    ClassifyIsComplete(fate, batch);
    InsertAllLands(Phase(tables, sorted.dead, true), sorted.buckets, f);
    match fate(m)
    case Skipped =>
    case Stored(c, row) => assert InBuckets(sorted.buckets, c, row);
    case Dead(letter) => assert letter in sorted.dead;
  }

  /** After a batch's inserts, however they went, every row and letter still has its source. */
  lemma {:induction false} InsertsKeepSources(fate: Fates, s: System, n: nat, f: Faults, p: Phase, c: Cluster)
    requires Inv(fate, s) && s.position + n <= |s.log|
    requires var sorted := Classify(fate, s.log[s.position..s.position + n]);
             p == Inserted(s.tables, sorted, f)
    ensures TableHasSources(fate, s.log, c, p.tables.At(c))
    ensures forall r :: Holds(s.tables.At(c), r) ==> Holds(p.tables.At(c), r)
    ensures forall d <- p.dead :: LetterHasSource(fate, s.log, d)
  {
    var sorted := Classify(fate, s.log[s.position..s.position + n]);
    var p0 := Phase(s.tables, sorted.dead, true);
    assert PhaseSound(p0) by {
      assert forall c :: TableHasSources(fate, s.log, c, s.tables.At(c));
    }
    InsertAllLands(p0, sorted.buckets, f);
    BatchSources(fate, s, n);
    assert TableHasSources(fate, s.log, c, s.tables.At(c));
  }

  /** Tables and dead letters only grew. */
  ghost predicate Grew(s: System, s': System) {
    && s'.log == s.log
    && (forall c, r :: Holds(s.tables.At(c), r) ==> Holds(s'.tables.At(c), r))
    && (forall d <- s.dlq :: d in s'.dlq)
  }

  lemma {:induction false} PreservedGrows(fate: Fates, s: System, s': System, o: nat)
    requires Inv(fate, s) && Grew(s, s') && o < s.position
    ensures Preserved(fate, s', s.log[o])
  {
    assert Preserved(fate, s, s.log[o]);
  }

  lemma {:induction false} AdvanceMeansDone(s: System, n: nat, p: Phase, f: Faults)
    requires s.committed <= s.position < Conclude(s, n, p, f).position
    ensures p.alive
    ensures Conclude(s, n, p, f).tables == p.tables && Conclude(s, n, p, f).dlq == s.dlq + p.dead
    ensures Conclude(s, n, p, f).position == s.position + n
  {
  }

  lemma {:induction false} SettledIsPreserved(fate: Fates, s: System, s': System, p: Phase, m: Message)
    requires s'.tables == p.tables && s'.dlq == s.dlq + p.dead
    requires Settled(fate, p, m)
    ensures Preserved(fate, s', m)
  {
  }

  lemma {:induction false} PolledIsInBatch(log: seq<Message>, position: nat, n: nat, o: nat)
    requires position <= o < position + n <= |log|
    ensures log[o] in log[position..position + n]
  {
    assert log[position..position + n][o - position] == log[o];
  }

  lemma {:induction false} PolledAreSettled(fate: Fates, s: System, n: nat, f: Faults, sorted: Classified, p: Phase,
                                            o: nat)
    requires s.position <= o < s.position + n <= |s.log|
    requires PhaseSound(Phase(s.tables, sorted.dead, true))
    requires sorted == Classify(fate, s.log[s.position..s.position + n])
    requires p == Inserted(s.tables, sorted, f) && p.alive
    ensures Settled(fate, p, s.log[o])
  {
    PolledIsInBatch(s.log, s.position, n, o);
    BatchSettles(fate, s.tables, s.log[s.position..s.position + n], f, sorted, p, s.log[o]);
  }

  /** The messages a poll moved past are preserved. */
  lemma {:induction false} PolledArePreserved(fate: Fates, s: System, n: nat, f: Faults, sorted: Classified, p: Phase,
                                              o: nat)
    requires s.position + n <= |s.log| && s.committed <= s.position
    requires PhaseSound(Phase(s.tables, sorted.dead, true))
    requires sorted == Classify(fate, s.log[s.position..s.position + n])
    requires p == Inserted(s.tables, sorted, f)
    requires s.position <= o < Conclude(s, n, p, f).position
    ensures Preserved(fate, Conclude(s, n, p, f), s.log[o])
  {
    AdvanceMeansDone(s, n, p, f);
    PolledAreSettled(fate, s, n, f, sorted, p, o);
    SettledIsPreserved(fate, s, Conclude(s, n, p, f), p, s.log[o]);
  }

  lemma {:induction false} PollConcludes(fate: Fates, s: System, n: nat, f: Faults, sorted: Classified, p: Phase)
    requires s.position + n <= |s.log|
    requires sorted == Classify(fate, s.log[s.position..s.position + n])
    requires p == Inserted(s.tables, sorted, f)
    ensures PollBatch(fate, s, n, f) == Conclude(s.(unmapped := s.unmapped + |sorted.dead|), n, p, f)
  {
  }

  lemma {:induction false} ConcludeShape(s: System, n: nat, p: Phase, f: Faults)
    requires s.committed <= s.position && s.position + n <= |s.log| && s.deadLettered <= |s.dlq|
    ensures var s' := Conclude(s, n, p, f);
            && s'.log == s.log && s'.tables == p.tables
            && s'.committed <= s'.position <= |s.log|
            && (forall d <- s.dlq :: d in s'.dlq)
            && (forall d <- s'.dlq :: d in s.dlq || d in p.dead)
            && s'.deadLettered <= |s'.dlq|
  {
  }

  lemma {:induction false} PollKeepsSources(fate: Fates, s: System, n: nat, f: Faults, p: Phase, s': System)
    requires Inv(fate, s) && s.position + n <= |s.log|
    requires var sorted := Classify(fate, s.log[s.position..s.position + n]);
             p == Inserted(s.tables, sorted, f)
    requires s'.tables == p.tables && forall d <- s'.dlq :: d in s.dlq || d in p.dead
    ensures forall c :: TableHasSources(fate, s.log, c, s'.tables.At(c))
    ensures forall c, r :: Holds(s.tables.At(c), r) ==> Holds(s'.tables.At(c), r)
    ensures forall d <- s'.dlq :: LetterHasSource(fate, s.log, d)
  {
    forall c
      ensures TableHasSources(fate, s.log, c, s'.tables.At(c))
      ensures forall r :: Holds(s.tables.At(c), r) ==> Holds(s'.tables.At(c), r)
    {
      InsertsKeepSources(fate, s, n, f, p, c);
    }
    InsertsKeepSources(fate, s, n, f, p, Us);
  }

  lemma {:induction false} PollPreserves(fate: Fates, s: System, s1: System, n: nat, f: Faults, p: Phase, s': System)
    requires Inv(fate, s) && s.position + n <= |s.log|
    requires var sorted := Classify(fate, s.log[s.position..s.position + n]);
             && s1 == s.(unmapped := s.unmapped + |sorted.dead|)
             && p == Inserted(s.tables, sorted, f)
    requires s' == Conclude(s1, n, p, f)
    requires forall c, r :: Holds(s.tables.At(c), r) ==> Holds(s'.tables.At(c), r)
    requires forall d <- s.dlq :: d in s'.dlq
    ensures forall o | 0 <= o < s'.position :: Preserved(fate, s', s.log[o])
  {
    var sorted := Classify(fate, s.log[s.position..s.position + n]);
    assert PhaseSound(Phase(s.tables, sorted.dead, true)) by {
      assert forall c :: TableHasSources(fate, s.log, c, s.tables.At(c));
    }
    forall o | 0 <= o < s'.position ensures Preserved(fate, s', s.log[o]) {
      if o < s.position {
        PreservedGrows(fate, s, s', o);
      } else {
        PolledArePreserved(fate, s1, n, f, sorted, p, o);
      }
    }
  }

  lemma {:induction false} ConcludeKeepsInv(fate: Fates, s: System, s1: System, n: nat, f: Faults, p: Phase, s': System)
    requires Inv(fate, s) && s.position + n <= |s.log|
    requires var sorted := Classify(fate, s.log[s.position..s.position + n]);
             && s1 == s.(unmapped := s.unmapped + |sorted.dead|)
             && p == Inserted(s.tables, sorted, f)
    requires s' == Conclude(s1, n, p, f)
    ensures Inv(fate, s')
  {
    ConcludeShape(s1, n, p, f);
    PollKeepsSources(fate, s, n, f, p, s');
    PollPreserves(fate, s, s1, n, f, p, s');
  }

  lemma {:induction false} PollKeepsInv(fate: Fates, s: System, n: nat, f: Faults)
    requires Inv(fate, s) && s.position + n <= |s.log|
    ensures Inv(fate, PollBatch(fate, s, n, f))
  {
    var sorted := Classify(fate, s.log[s.position..s.position + n]);
    var s1, p := s.(unmapped := s.unmapped + |sorted.dead|), Inserted(s.tables, sorted, f);
    PollConcludes(fate, s, n, f, sorted, p);
    ConcludeKeepsInv(fate, s, s1, n, f, p, PollBatch(fate, s, n, f));
  }

  lemma {:induction false} NextKeepsInv(fate: Fates, s: System, h: Happening)
    requires Inv(fate, s)
    ensures Inv(fate, Next(fate, s, h))
  {
    match h
    case Produce(m) => SourcesSurviveProduce(fate, s, m);
    case Poll(n, f) =>
      if s.position + n <= |s.log| { PollKeepsInv(fate, s, n, f); }
    case Restart =>
    case Background(c, op) =>
      if Maintenance(op) {
        var s' := Next(fate, s, h);
        MaintenanceKeepsSources(fate, s.log, c, s.tables.At(c), op);
        forall o | 0 <= o < s.position ensures Preserved(fate, s', s.log[o]) {
          PreservedGrows(fate, s, s', o);
        }
      }
  }

  lemma {:induction false} HistoryKeepsInv(fate: Fates, hs: seq<Happening>)
    ensures Inv(fate, History(fate, hs))
  {
    if hs != [] {
      HistoryKeepsInv(fate, hs[..|hs| - 1]);
      NextKeepsInv(fate, History(fate, hs[..|hs| - 1]), hs[|hs| - 1]);
    }
  }

  /* ---------------- the guarantees ---------------- */

  /**
   * Offsets never pass an unpreserved message: after any history, every message below the committed
   * offset (and below the reading position) is preserved, and a stored one is visible to queries.
   */
  lemma {:induction false} OffsetsNeverSkip(fate: Fates, hs: seq<Happening>)
    ensures var s := History(fate, hs);
            && s.committed <= s.position <= |s.log|
            && forall o | 0 <= o < s.position ::
                 && Preserved(fate, s, s.log[o])
                 && (fate(s.log[o]).Stored? ==>
                       var c, row := fate(s.log[o]).cluster, fate(s.log[o]).row;
                       || KeyOf(row) in Final(s.tables.At(c).rows)
                       || DeadLetter(InsertFailed, OfRow(row)) in s.dlq)
  {
    HistoryKeepsInv(fate, hs);
    var s := History(fate, hs);
    FinalKeys(s.tables.us.accepted);
    FinalKeys(s.tables.eu.accepted);
  }

  /**
   * A cluster only ever shows rows of messages routed to it, and the dead-letter topic only what could not
   * be stored.
   */
  lemma {:induction false} NothingIsMisrouted(fate: Fates, hs: seq<Happening>, c: Cluster, k: Key)
    ensures var s := History(fate, hs);
            && (k in Final(s.tables.At(c).rows) ==> RowHasSource(fate, s.log, c, Final(s.tables.At(c).rows)[k]))
            && (forall d <- s.dlq :: LetterHasSource(fate, s.log, d))
            && s.deadLettered <= |s.dlq|
  {
    HistoryKeepsInv(fate, hs);
    var s := History(fate, hs);
    assert TableHasSources(fate, s.log, c, s.tables.At(c));
    FinalKeys(s.tables.At(c).accepted);
  }

  /** The rows one cluster receives if every mappable message of the log is processed exactly once, in order. */
  function RowsOnce(fate: Fates, log: seq<Message>, c: Cluster): seq<EventRow> {
    if log == [] then []
    else
      var n := |log| - 1;
      var rest := RowsOnce(fate, log[..n], c);
      match fate(log[n])
      case Stored(c', row) => if c' == c then rest + [row] else rest
      case _ => rest
  }

  lemma {:induction false} RowsOnceAre(fate: Fates, log: seq<Message>, c: Cluster)
    ensures forall r :: r in RowsOnce(fate, log, c) <==> RowHasSource(fate, log, c, r)
  {
    if log != [] {
      var n := |log| - 1;
      RowsOnceAre(fate, log[..n], c);
      forall r
        ensures RowHasSource(fate, log, c, r) <==> RowHasSource(fate, log[..n], c, r) || fate(log[n]) == Stored(c, r)
      {
        if o :| 0 <= o < |log| && fate(log[o]) == Stored(c, r) {
          if o < n {
            assert fate(log[..n][o]) == Stored(c, r);
          }
        }
        if o :| 0 <= o < n && fate(log[..n][o]) == Stored(c, r) {
          assert fate(log[o]) == Stored(c, r);
        }
      }
    }
  }

  /** Messages stored in one cluster under one dedup key give one and the same row. */
  ghost predicate KeysIdentify(fate: Fates, log: seq<Message>) {
    forall i, j | 0 <= i < |log| && 0 <= j < |log| && fate(log[i]).Stored? && fate(log[j]).Stored?
                  && fate(log[i]).cluster == fate(log[j]).cluster
                  && KeyOf(fate(log[i]).row) == KeyOf(fate(log[j]).row) ::
      fate(log[i]).row == fate(log[j]).row
  }

  lemma {:induction false} RowsOnceConsistent(fate: Fates, log: seq<Message>, c: Cluster)
    requires KeysIdentify(fate, log)
    ensures Consistent(RowsOnce(fate, log, c))
  {
    var rows := RowsOnce(fate, log, c);
    RowsOnceAre(fate, log, c);
    forall i, j | 0 <= i < |rows| && 0 <= j < |rows| && KeyOf(rows[i]) == KeyOf(rows[j])
      ensures rows[i] == rows[j]
    {
      assert rows[i] in rows && rows[j] in rows;
      var a :| 0 <= a < |log| && fate(log[a]) == Stored(c, rows[i]);
      var b :| 0 <= b < |log| && fate(log[b]) == Stored(c, rows[j]);
      assert fate(log[a]).row == fate(log[b]).row;
    }
  }

  predicate SubMap(a: map<Key, EventRow>, b: map<Key, EventRow>) {
    forall k <- a :: k in b && a[k] == b[k]
  }

  lemma {:induction false} FinalOfFewerRows(a: seq<EventRow>, b: seq<EventRow>)
    requires Consistent(b)
    requires forall r <- a :: r in b
    ensures SubMap(Final(a), Final(b))
  {
    FinalKeys(a);
    FinalKeys(b);
    forall k | k in Final(a)
      ensures k in Final(b) && Final(a)[k] == Final(b)[k]
    {
      var x := Final(a)[k];
      assert x in b && KeyOf(x) == k;
      var i :| 0 <= i < |b| && b[i] == x;
      var j :| 0 <= j < |b| && b[j] == Final(b)[k];
      assert KeyOf(b[i]) == KeyOf(b[j]);
    }
  }

  /** A cluster took in rows of the log only, and all rows of what has been read. */
  lemma {:induction false} AcceptedBetween(fate: Fates, s: System, c: Cluster)
    requires Inv(fate, s) && forall d <- s.dlq :: d.reason != InsertFailed
    ensures forall r <- s.tables.At(c).accepted :: r in RowsOnce(fate, s.log, c)
    ensures forall r <- RowsOnce(fate, s.log[..s.position], c) :: r in s.tables.At(c).accepted
  {
    var t, read := s.tables.At(c), s.log[..s.position];
    RowsOnceAre(fate, s.log, c);
    RowsOnceAre(fate, read, c);
    assert TableHasSources(fate, s.log, c, t);
    forall r | r in t.accepted
      ensures r in RowsOnce(fate, s.log, c)
    {
      assert Touches(t, r);
    }
    forall r | r in RowsOnce(fate, read, c)
      ensures r in t.accepted
    {
      var o :| 0 <= o < |read| && fate(read[o]) == Stored(c, r);
      assert Preserved(fate, s, s.log[o]);
    }
  }

  /**
   * Effectively once, at every moment of any history in which no insert was dead-lettered: each
   * cluster's FINAL view lies between the exactly-once view of what has been read and the
   * exactly-once view of the whole log.
   */
  lemma {:induction false} EffectivelyOnceBetween(fate: Fates, hs: seq<Happening>, c: Cluster)
    requires KeysIdentify(fate, History(fate, hs).log)
    requires forall d <- History(fate, hs).dlq :: d.reason != InsertFailed
    ensures var s := History(fate, hs);
            && s.position <= |s.log|
            && SubMap(Final(RowsOnce(fate, s.log[..s.position], c)), Final(s.tables.At(c).rows))
            && SubMap(Final(s.tables.At(c).rows), Final(RowsOnce(fate, s.log, c)))
  {
    var s := History(fate, hs);
    var t := s.tables.At(c);
    HistoryKeepsInv(fate, hs);
    var read := s.log[..s.position];
    AcceptedBetween(fate, s, c);
    RowsOnceConsistent(fate, s.log, c);
    ConsistentSubset(t.accepted, RowsOnce(fate, s.log, c));
    FinalOfFewerRows(t.accepted, RowsOnce(fate, s.log, c));
    FinalOfFewerRows(RowsOnce(fate, read, c), t.accepted);
  }

  lemma {:induction false} ConsistentSubset(a: seq<EventRow>, b: seq<EventRow>)
    requires Consistent(b)
    requires forall r <- a :: r in b
    ensures Consistent(a)
  {
    forall i, j | 0 <= i < |a| && 0 <= j < |a| && KeyOf(a[i]) == KeyOf(a[j])
      ensures a[i] == a[j]
    {
      assert a[i] in a && a[j] in a;
      var i' :| 0 <= i' < |b| && b[i'] == a[i];
      var j' :| 0 <= j' < |b| && b[j'] == a[j];
      assert KeyOf(b[i']) == KeyOf(b[j']);
    }
  }

  /**
   * Once everything is committed, replays, retries, merges and crashes are invisible: the view is the
   * exactly-once view.
   */
  lemma {:induction false} EffectivelyOnce(fate: Fates, hs: seq<Happening>, c: Cluster)
    requires KeysIdentify(fate, History(fate, hs).log)
    requires forall d <- History(fate, hs).dlq :: d.reason != InsertFailed
    requires History(fate, hs).committed == |History(fate, hs).log|
    ensures Final(History(fate, hs).tables.At(c).rows) == Final(RowsOnce(fate, History(fate, hs).log, c))
  {
    var s := History(fate, hs);
    HistoryKeepsInv(fate, hs);
    EffectivelyOnceBetween(fate, hs, c);
    assert s.log[..s.position] == s.log;
  }

  /** The counter is never short of the raw count, and exact exactly if nothing counted was rolled up twice. */
  ghost predicate CaughtUp(t: Table, p: Key -> bool, counter: nat) {
    && RawCount(t, p) <= counter
    && (counter == RawCount(t, p) <==> NoRepeat(t.viewed, p))
  }

  lemma {:induction false} SameKeysCatchUp(t: Table, p: Key -> bool, counter: nat)
    requires forall r :: r in t.accepted <==> r in t.viewed
    requires Drifts(t, p, counter)
    ensures CaughtUp(t, p, counter)
  {
    assert Missing(t, p) == {} && Stale(t, p) == {};
    NothingMissing(t, p, counter);
  }

  /** Once all is committed, events table and rollup have taken in the same rows: those of the log. */
  lemma {:induction false} BothTookAll(fate: Fates, hs: seq<Happening>, c: Cluster)
    requires forall d <- History(fate, hs).dlq :: d.reason != InsertFailed
    requires History(fate, hs).committed == |History(fate, hs).log|
    ensures var t := History(fate, hs).tables.At(c);
            Valid(t) && forall r :: r in t.accepted <==> r in t.viewed
  {
    var s := History(fate, hs);
    HistoryKeepsInv(fate, hs);
    var t := s.tables.At(c);
    assert TableHasSources(fate, s.log, c, t);
    forall r
      ensures r in t.accepted <==> r in t.viewed
    {
      if Touches(t, r) {
        var o :| 0 <= o < |s.log| && fate(s.log[o]) == Stored(c, r);
        assert Preserved(fate, s, s.log[o]);
      }
    }
  }

  /**
   * Once everything is committed the rollup has caught up with the raw events, through inserts that
   * failed between the two, crashes and replays: no counter is short, and each is exact exactly if none
   * of the events it counts was rolled up twice.
   */
  lemma {:induction false} RollupCatchesUp(fate: Fates, hs: seq<Happening>, c: Cluster, q: Group -> bool,
                                           counter: Counter)
    requires forall d <- History(fate, hs).dlq :: d.reason != InsertFailed
    requires History(fate, hs).committed == |History(fate, hs).log|
    ensures var t := History(fate, hs).tables.At(c);
            CaughtUp(t, Counted(q, counter), counter.Of(Total(t.rollups, q)))
  {
    var t := History(fate, hs).tables.At(c);
    BothTookAll(fate, hs, c);
    TotalDrifts(t, q, counter);
    SameKeysCatchUp(t, Counted(q, counter), counter.Of(Total(t.rollups, q)));
  }

  /**
   * The same for the deployed classification, message by message: below the committed offset bytes
   * that are not JSON and documents that do not map are on the dead-letter topic with their reason,
   * and a mappable document's row, which carries its serialised form, was taken in by its tenant's region
   * or dead-lettered.
   */
  lemma {:induction false} DeployedMessagesAreKept(cfg: Config, hs: seq<Happening>, o: nat)
    requires o < History(FateIn(cfg), hs).committed
    ensures var s := History(FateIn(cfg), hs);
            o < |s.log| && match s.log[o]
                           case Blank => true
                           case Garbage(_) => DeadLetter(Unparsable, OfMessage(s.log[o])) in s.dlq
                           case Doc(json) =>
                             if Mappable(json) then
                               exists row: EventRow ::
                                 && row.payload == Serialised(json)
                                 && (Holds(s.tables.At(Route(cfg, Residency(json))), row)
                                     || DeadLetter(InsertFailed, OfRow(row)) in s.dlq)
                             else DeadLetter(Unmappable, OfMessage(s.log[o])) in s.dlq
  {
    var s := History(FateIn(cfg), hs);
    OffsetsNeverSkip(FateIn(cfg), hs);
    assert Preserved(FateIn(cfg), s, s.log[o]);
    if s.log[o].Doc? && Mappable(s.log[o].json) {
      var row := ToRow(s.log[o].json, cfg.instant).value;
      assert FateIn(cfg)(s.log[o]) == Stored(Route(cfg, Residency(s.log[o].json)), row);
      PayloadIsSerialised(s.log[o].json, cfg.instant);
    }
  }

  /**
   * And back: a dead letter is the text of an unparsable message of the log, one of its documents that does
   * not map, or the row of one that does.
   */
  lemma {:induction false} DeadLettersAreEarned(cfg: Config, hs: seq<Happening>, d: DeadLetter)
    requires d in History(FateIn(cfg), hs).dlq
    ensures var log := History(FateIn(cfg), hs).log;
            match d
            case DeadLetter(Unparsable, OfMessage(m)) => m in log && m.Garbage?
            case DeadLetter(Unmappable, OfMessage(m)) => m in log && m.Doc? && !Mappable(m.json)
            case DeadLetter(InsertFailed, OfRow(row)) =>
              exists m <- log :: m.Doc? && ToRow(m.json, cfg.instant) == Some(row)
            case _ => false
  {
    var s := History(FateIn(cfg), hs);
    HistoryKeepsInv(FateIn(cfg), hs);
    assert LetterHasSource(FateIn(cfg), s.log, d);
    if o :| 0 <= o < |s.log| && FateIn(cfg)(s.log[o]) == Dead(d) {
      assert s.log[o] in s.log;
    } else {
      var c :| RowHasSource(FateIn(cfg), s.log, c, d.original.row);
      var o :| 0 <= o < |s.log| && FateIn(cfg)(s.log[o]) == Stored(c, d.original.row);
      assert s.log[o] in s.log;
    }
  }

  /** A batch is got through, or read again from the last commit: nothing in between. */
  lemma {:induction false} BatchIsAllOrCommitted(fate: Fates, s: System, n: nat, f: Faults)
    requires s.position + n <= |s.log| && (f.dlq.DlqAccepted? || !f.resumes)
    ensures var s' := Next(fate, s, Poll(n, f));
            && (s'.position == s.position + n || s'.position == s.committed)
            && (s'.committed == s.committed || (f.commits && s'.committed == s'.position == s.position + n))
    ensures Next(fate, s, Restart) == System(s.log, s.committed, s.committed, s.tables, s.dlq, 0, 0)
  {
  }

  /** Rejected messages go to the topic in the order they were read. */
  lemma {:induction false} RejectionsKeepOrder(fate: Fates, a: seq<Message>, b: seq<Message>)
    ensures Classify(fate, a + b).dead == Classify(fate, a).dead + Classify(fate, b).dead
    ensures forall m, letter | fate(m) == Dead(letter) :: Classify(fate, [m]).dead == [letter]
  {
    if b == [] {
      assert a + b == a;
      forall m, letter | fate(m) == Dead(letter) ensures Classify(fate, [m]).dead == [letter] {
        assert [m][..0] == [];
      }
    } else {
      var n := |b| - 1;
      RejectionsKeepOrder(fate, a, b[..n]);
      assert (a + b)[..|a + b| - 1] == a + b[..n];
    }
  }

  /* ---------------- the counters ---------------- */

  /** The places of a batch whose message is rejected. */
  function Rejected(fate: Fates, batch: seq<Message>): set<nat> {
    set i: nat | i < |batch| && fate(batch[i]).Dead?
  }

  lemma {:induction false} RejectedAreDead(fate: Fates, batch: seq<Message>)
    ensures |Classify(fate, batch).dead| == |Rejected(fate, batch)|
  {
    if batch == [] {
      assert Rejected(fate, batch) == {};
    } else {
      var n := |batch| - 1;
      RejectedAreDead(fate, batch[..n]);
      assert Rejected(fate, batch) == Rejected(fate, batch[..n]) + if fate(batch[n]).Dead? then {n} else {};
    }
  }

  /** What a handler that gets through counts: rejected messages as unmapped, whatever reached the topic as dead. */
  lemma {:induction false} PollCounts(fate: Fates, s: System, n: nat, f: Faults)
    requires s.position + n <= |s.log|
    ensures var (batch, s') := (s.log[s.position..s.position + n], PollBatch(fate, s, n, f));
            && (s'.unmapped == s.unmapped + |Rejected(fate, batch)| || s'.unmapped == 0)
            && (s'.position == s.position + n && 0 < n && s.committed <= s.position ==>
                  && s'.unmapped == s.unmapped + |Rejected(fate, batch)|
                  && s'.deadLettered - s.deadLettered == |s'.dlq| - |s.dlq|)
  {
    RejectedAreDead(fate, s.log[s.position..s.position + n]);
  }

  /* ---------------- residency ---------------- */

  /** The document carries the residency tag of Europe, and Europe has a cluster of its own. */
  predicate Europes(cfg: Config, json: Document) {
    cfg.hasEu && Has(json, "residency", Str("eu"))
  }

  lemma {:induction false} EuropesGoToEurope(cfg: Config, json: Document)
    ensures Route(cfg, Residency(json)) == if Europes(cfg, json) then Eu else Us
  {
    FieldIsMember(json, "residency", Str("eu"));
    if Field(json, "residency").Some? && Field(json, "residency").value.Str? {
      FieldIsMember(json, "residency", Field(json, "residency").value);
    }
  }

  /** A mappable document of the log that gives this row. */
  ghost predicate GivesRow(cfg: Config, m: Message, r: EventRow) {
    m.Doc? && ToRow(m.json, cfg.instant) == Some(r)
  }

  /** A message is stored by Europe's tag, or the lack of it. */
  lemma {:induction false} StoredByTag(cfg: Config, m: Message, c: Cluster, r: EventRow)
    ensures FateIn(cfg)(m) == Stored(c, r) <==> GivesRow(cfg, m, r) && Europes(cfg, m.json) == (c == Eu)
  {
    if m.Doc? {
      EuropesGoToEurope(cfg, m.json);
    }
  }

  lemma {:induction false} TouchedHasTag(cfg: Config, hs: seq<Happening>, c: Cluster, r: EventRow)
    requires Touches(History(FateIn(cfg), hs).tables.At(c), r)
    ensures exists m <- History(FateIn(cfg), hs).log :: GivesRow(cfg, m, r) && Europes(cfg, m.json) == (c == Eu)
  {
    var s := History(FateIn(cfg), hs);
    HistoryKeepsInv(FateIn(cfg), hs);
    assert TableHasSources(FateIn(cfg), s.log, c, s.tables.At(c));
    var o :| 0 <= o < |s.log| && FateIn(cfg)(s.log[o]) == Stored(c, r);
    StoredByTag(cfg, s.log[o], c, r);
    assert s.log[o] in s.log;
  }

  /**
   * Whatever happens, a row in the European tables comes from a document tagged for Europe, and there is
   * none without a European cluster; a row in the American tables comes from any other document.
   */
  lemma {:induction false} RegionsStayApart(cfg: Config, hs: seq<Happening>, r: EventRow)
    ensures var s := History(FateIn(cfg), hs);
            && (Touches(s.tables.eu, r) ==> exists m <- s.log :: GivesRow(cfg, m, r) && Europes(cfg, m.json))
            && (Touches(s.tables.us, r) ==> exists m <- s.log :: GivesRow(cfg, m, r) && !Europes(cfg, m.json))
  {
    var s := History(FateIn(cfg), hs);
    if Touches(s.tables.eu, r) {
      TouchedHasTag(cfg, hs, Eu, r);
    }
    if Touches(s.tables.us, r) {
      TouchedHasTag(cfg, hs, Us, r);
    }
  }

  lemma {:induction false} ReadIsPreserved(fate: Fates, hs: seq<Happening>, o: nat, c: Cluster, r: EventRow)
    requires var s := History(fate, hs); o < s.position && o < |s.log| && fate(s.log[o]) == Stored(c, r)
    ensures var s := History(fate, hs);
            Holds(s.tables.At(c), r) || DeadLetter(InsertFailed, OfRow(r)) in s.dlq
  {
    HistoryKeepsInv(fate, hs);
    assert Preserved(fate, History(fate, hs), History(fate, hs).log[o]);
  }

  /**
   * And each message that has been read is where it belongs: a mappable one tagged for Europe in the
   * European tables, any other mappable one in the American, or its row among the dead letters.
   */
  lemma {:induction false} EachRegionKeepsItsOwn(cfg: Config, hs: seq<Happening>, o: nat, r: EventRow)
    requires o < History(FateIn(cfg), hs).position
    requires var s := History(FateIn(cfg), hs); o < |s.log| && GivesRow(cfg, s.log[o], r)
    ensures var s := History(FateIn(cfg), hs);
            || DeadLetter(InsertFailed, OfRow(r)) in s.dlq
            || (if Europes(cfg, s.log[o].json) then r in s.tables.eu.accepted && r in s.tables.eu.viewed
                else r in s.tables.us.accepted && r in s.tables.us.viewed)
  {
    var s := History(FateIn(cfg), hs);
    var c := if Europes(cfg, s.log[o].json) then Eu else Us;
    StoredByTag(cfg, s.log[o], c, r);
    ReadIsPreserved(FateIn(cfg), hs, o, c, r);
  }

  /* ---------------- why same-key messages must be identical ---------------- */

  /** No insert fails, nothing dies; only whether the commit takes effect is left open. */
  function Calm(commits: bool): Faults {
    var fine := Tries(Returned(Acknowledged), Returned(Acknowledged));
    Faults(fine, fine, DlqAccepted, commits, true)
  }

  lemma {:induction false} PlaceInSole(rows: seq<EventRow>, row: EventRow)
    ensures Place([Bucket(Us, rows)], Us, row) == [Bucket(Us, rows + [row])]
  {
  }

  lemma {:induction false} CalmClassify(fate: Fates, batch: seq<Message>, rows: seq<EventRow>)
    requires 0 < |rows| == |batch|
    requires forall i | 0 <= i < |rows| :: fate(batch[i]) == Stored(Us, rows[i])
    ensures Classify(fate, batch) == Classified([Bucket(Us, rows)], [])
  {
    var n := |rows| - 1;
    var rest := Classify(fate, batch[..n]);
    assert fate(batch[n]) == Stored(Us, rows[n]);
    if n == 0 {
      assert rest == Classified([], []);
      assert rows == [rows[0]];
    } else {
      CalmClassify(fate, batch[..n], rows[..n]);
      PlaceInSole(rows[..n], rows[n]);
      assert rows[..n] + [rows[n]] == rows;
    }
  }

  lemma {:induction false} CalmInsert(p: Phase, b: Bucket, commits: bool)
    requires p.alive
    ensures InsertAll(p, [b], Calm(commits)) == Tried(p, b, Acknowledged)
  {
    assert [b][..0] == [];
  }

  lemma {:induction false} CalmPoll(fate: Fates, s: System, rows: seq<EventRow>, commits: bool)
    requires 0 < |rows| && s.position + |rows| <= |s.log|
    requires forall i | 0 <= i < |rows| :: fate(s.log[s.position + i]) == Stored(Us, rows[i])
    ensures PollBatch(fate, s, |rows|, Calm(commits))
         == s.(tables := s.tables.With(Us, Insert(s.tables.us, rows, Acknowledged)),
               position := s.position + |rows|,
               committed := if commits then s.position + |rows| else s.committed)
  {
    CalmClassify(fate, s.log[s.position..s.position + |rows|], rows);
    CalmInsert(Phase(s.tables, [], true), Bucket(Us, rows), commits);
    assert s.dlq + [] == s.dlq;
  }

  /** A token leaves one of the deduplication windows. */
  predicate Forgets(h: Happening) {
    h.Background? && (h.op.OpForget? || h.op.OpForgetViewed?)
  }

  /** No token is ever forgotten. */
  ghost predicate Remembering(hs: seq<Happening>) {
    forall i | 0 <= i < |hs| :: !Forgets(hs[i])
  }

  lemma {:induction false} Extended(fate: Fates, hs: seq<Happening>, h: Happening) returns (more: seq<Happening>)
    ensures more == hs + [h] && History(fate, more) == Next(fate, History(fate, hs), h)
    ensures Remembering(hs) && !Forgets(h) ==> Remembering(more)
  {
    more := hs + [h];
    assert more[..|more| - 1] == hs;
  }

  lemma {:induction false} ThreeProduced(fate: Fates, m0: Message, m1: Message, m2: Message)
    ensures History(fate, [Produce(m0), Produce(m1), Produce(m2)]) == START.(log := [m0, m1, m2])
  {
    var h1 := Extended(fate, [], Produce(m0));
    var h2 := Extended(fate, h1, Produce(m1));
    var h3 := Extended(fate, h2, Produce(m2));
    assert h3 == [Produce(m0), Produce(m1), Produce(m2)];
    assert [] + [m0] + [m1] + [m2] == [m0, m1, m2];
  }

  lemma {:induction false} ThreeOnce(fate: Fates, m0: Message, m1: Message, m2: Message, r0: EventRow, r1: EventRow,
                                     r2: EventRow)
    requires fate(m0) == Stored(Us, r0) && fate(m1) == Stored(Us, r1) && fate(m2) == Stored(Us, r2)
    ensures RowsOnce(fate, [m0, m1, m2], Us) == [r0, r1, r2]
  {
    assert [m0][..0] == [] && [m0, m1][..1] == [m0] && [m0, m1, m2][..2] == [m0, m1];
    assert RowsOnce(fate, [m0], Us) == [r0];
    assert RowsOnce(fate, [m0, m1], Us) == [r0, r1];
  }

  /** One calm poll of a single message, appended to a history. */
  lemma {:induction false} PollOne(fate: Fates, hs: seq<Happening>, row: EventRow, commits: bool)
    returns (more: seq<Happening>)
    requires var s := History(fate, hs); s.position < |s.log| && fate(s.log[s.position]) == Stored(Us, row)
    ensures var s := History(fate, hs);
            History(fate, more) == s.(tables := s.tables.With(Us, Insert(s.tables.us, [row], Acknowledged)),
                                      position := s.position + 1,
                                      committed := if commits then s.position + 1 else s.committed)
  {
    more := Extended(fate, hs, Poll(1, Calm(commits)));
    CalmPoll(fate, History(fate, hs), [row], commits);
  }

  lemma {:induction false} ThreeInserted(r0: EventRow, r1: EventRow, r2: EventRow)
    requires r0 != r1 && r1 != r2 && r0 != r2
    ensures var t := Insert(Insert(Insert(EMPTY, [r0], Acknowledged), [r1], Acknowledged), [r2], Acknowledged);
            t.rows == [r0, r1, r2] && t.tokens == {[r0], [r1], [r2]}
  {
    assert [r1][0] != [r0][0] && [r2][0] != [r0][0] && [r2][0] != [r1][0];
  }

  /** Three messages are read one by one, no commit takes effect, and the consumer restarts. */
  lemma {:induction false} ReadUncommitted(fate: Fates, m0: Message, m1: Message, m2: Message, r0: EventRow,
                                           r1: EventRow, r2: EventRow)
    returns (hs: seq<Happening>)
    requires fate(m0) == Stored(Us, r0) && fate(m1) == Stored(Us, r1) && fate(m2) == Stored(Us, r2)
    requires r0 != r1 && r1 != r2 && r0 != r2
    ensures var s := History(fate, hs);
            && s.log == [m0, m1, m2] && s.position == 0 && s.committed == 0 && s.dlq == []
            && s.tables.us.rows == [r0, r1, r2] && s.tables.us.tokens == {[r0], [r1], [r2]}
  {
    ThreeProduced(fate, m0, m1, m2);
    hs := PollOne(fate, [Produce(m0), Produce(m1), Produce(m2)], r0, false);
    hs := PollOne(fate, hs, r1, false);
    hs := PollOne(fate, hs, r2, false);
    ThreeInserted(r0, r1, r2);
    hs := Extended(fate, hs, Restart);
  }

  lemma {:induction false} TwoAgain(t: Table, r0: EventRow, r1: EventRow, r2: EventRow)
    requires t.rows == [r0, r1, r2] && t.tokens == {[r0], [r1], [r2]}
    ensures var again := Insert(Insert(t, [r0, r1], Acknowledged), [r2], Acknowledged);
            again.rows == [r0, r1, r2, r0, r1]
  {
    assert |[r0, r1]| == 2 && [r0, r1] !in t.tokens;
  }

  /** The first two messages come again as one batch, the third as the identical batch it was. */
  lemma {:induction false} ReadAgain(fate: Fates, hs: seq<Happening>, m0: Message, m1: Message, m2: Message,
                                     r0: EventRow, r1: EventRow, r2: EventRow)
    returns (more: seq<Happening>)
    requires fate(m0) == Stored(Us, r0) && fate(m1) == Stored(Us, r1) && fate(m2) == Stored(Us, r2)
    requires var s := History(fate, hs);
             && s.log == [m0, m1, m2] && s.position == 0 && s.dlq == []
             && s.tables.us.rows == [r0, r1, r2] && s.tables.us.tokens == {[r0], [r1], [r2]}
    ensures var s := History(fate, more);
            && s.log == [m0, m1, m2] && s.committed == 3 && s.dlq == []
            && s.tables.us.rows == [r0, r1, r2, r0, r1]
  {
    more := Extended(fate, hs, Poll(2, Calm(false)));
    TwoAgain(History(fate, hs).tables.us, r0, r1, r2);
    CalmPoll(fate, History(fate, hs), [r0, r1], false);
    more := PollOne(fate, more, r2, true);
  }

  /**
   * Without it a replay can bring an older row back. Three messages are read one by one but no
   * commit takes effect; after a restart the first two come as one batch, a new batch token, while
   * the third is skipped as an identical retry. Everything is committed, nothing failed, and FINAL
   * shows the second message's row where processing once shows the third's.
   */
  lemma {:induction false} ReplayCanRestoreOlderRow(fate: Fates, m0: Message, m1: Message, m2: Message, r0: EventRow,
                                                    r1: EventRow, r2: EventRow)
    requires fate(m0) == Stored(Us, r0) && fate(m1) == Stored(Us, r1) && fate(m2) == Stored(Us, r2)
    requires KeyOf(r1) == KeyOf(r2) && r1 != r2 && KeyOf(r0) != KeyOf(r1)
    ensures exists hs ::
              var s := History(fate, hs);
              && s.committed == |s.log| && s.dlq == []
              && KeyOf(r2) in Final(s.tables.us.rows) && Final(s.tables.us.rows)[KeyOf(r2)] == r1
              && KeyOf(r2) in Final(RowsOnce(fate, s.log, Us)) && Final(RowsOnce(fate, s.log, Us))[KeyOf(r2)] == r2
  {
    var first := ReadUncommitted(fate, m0, m1, m2, r0, r1, r2);
    var hs := ReadAgain(fate, first, m0, m1, m2, r0, r1, r2);
    var s := History(fate, hs);
    FinalShowsLast(s.tables.us.rows, 4);
    ThreeOnce(fate, m0, m1, m2, r0, r1, r2);
    FinalShowsLast(RowsOnce(fate, s.log, Us), 2);
  }

  /* ---------------- exactly when the view is the exactly-once view ---------------- */

  /** One cluster's table after these messages are read one by one and every insert is acknowledged. */
  function Read(fate: Fates, t: Table, messages: seq<Message>, c: Cluster): Table {
    if messages == [] then t
    else
      var n := |messages| - 1;
      var before := Read(fate, t, messages[..n], c);
      match fate(messages[n])
      case Stored(c', row) => if c' == c then Insert(before, [row], Acknowledged) else before
      case _ => before
  }

  lemma {:induction false} ReadOneMore(fate: Fates, t: Table, messages: seq<Message>, m: Message, c: Cluster)
    ensures Read(fate, t, messages + [m], c) == Read(fate, Read(fate, t, messages, c), [m], c)
  {
    assert (messages + [m])[..|messages|] == messages;
    assert [m][..0] == [];
  }

  lemma {:induction false} OneClassified(fate: Fates, m: Message)
    ensures Classify(fate, [m]) == match fate(m)
                                   case Skipped => Classified([], [])
                                   case Stored(c, row) => Classified([Bucket(c, [row])], [])
                                   case Dead(letter) => Classified([], [letter])
  {
    assert [m][..0] == [];
  }

  /** What a calm poll of one message does. */
  ghost predicate ReadsOne(fate: Fates, s: System, s': System, m: Message, commits: bool) {
    && s'.log == s.log && s'.position == s.position + 1
    && s'.committed == (if commits then s.position + 1 else s.committed)
    && (forall c :: s'.tables.At(c) == Read(fate, s.tables.At(c), [m], c))
    && (forall d <- s'.dlq :: d in s.dlq || fate(m) == Dead(d))
  }

  lemma {:induction false} OnePoll(fate: Fates, s: System, commits: bool)
    requires s.position < |s.log|
    ensures ReadsOne(fate, s, PollBatch(fate, s, 1, Calm(commits)), s.log[s.position], commits)
  {
    var m := s.log[s.position];
    assert s.log[s.position..s.position + 1] == [m];
    assert [m][..0] == [];
    OneClassified(fate, m);
    match fate(m)
    case Skipped =>
    case Stored(c, row) =>
      CalmInsert(Phase(s.tables, [], true), Bucket(c, [row]), commits);
    case Dead(_) =>
  }

  ghost predicate LettersFrom(fate: Fates, s: System, s': System) {
    forall d <- s'.dlq :: d in s.dlq || exists m :: m in s.log && fate(m) == Dead(d)
  }

  /** What calm polls of the next k messages, one by one, do. */
  ghost predicate ReadsSome(fate: Fates, s: System, s': System, k: nat, commits: bool) {
    && s'.log == s.log && s'.position == s.position + k <= |s.log|
    && s'.committed == (if commits && 0 < k then s.position + k else s.committed)
    && (forall c :: s'.tables.At(c) == Read(fate, s.tables.At(c), s.log[s.position..s.position + k], c))
    && LettersFrom(fate, s, s')
  }

  lemma {:induction false} LettersCompose(fate: Fates, s: System, mid: System, s': System, m: Message)
    requires mid.log == s.log && m in s.log && LettersFrom(fate, s, mid)
    requires forall d <- s'.dlq :: d in mid.dlq || fate(m) == Dead(d)
    ensures LettersFrom(fate, s, s')
  {
    forall d <- s'.dlq
      ensures d in s.dlq || exists m :: m in s.log && fate(m) == Dead(d)
    {
      if d !in mid.dlq {
        assert m in s.log && fate(m) == Dead(d);
      }
    }
  }

  lemma {:induction false} TablesCompose(fate: Fates, s: System, mid: System, s': System, read: seq<Message>,
                                         m: Message)
    requires forall c :: mid.tables.At(c) == Read(fate, s.tables.At(c), read, c)
    requires forall c :: s'.tables.At(c) == Read(fate, mid.tables.At(c), [m], c)
    ensures forall c :: s'.tables.At(c) == Read(fate, s.tables.At(c), read + [m], c)
  {
    forall c
      ensures s'.tables.At(c) == Read(fate, s.tables.At(c), read + [m], c)
    {
      ReadOneMore(fate, s.tables.At(c), read, m, c);
    }
  }

  lemma {:induction false} ReadsCompose(fate: Fates, s: System, mid: System, s': System, k: nat, commits: bool)
    requires ReadsSome(fate, s, mid, k, commits) && mid.position < |s.log|
    requires ReadsOne(fate, mid, s', s.log[mid.position], commits)
    ensures ReadsSome(fate, s, s', k + 1, commits)
  {
    var read, m := s.log[s.position..s.position + k], s.log[s.position + k];
    assert read + [m] == s.log[s.position..s.position + k + 1];
    TablesCompose(fate, s, mid, s', read, m);
    LettersCompose(fate, s, mid, s', m);
  }

  /** Reading the next k messages one by one. */
  lemma {:induction false} ReadEach(fate: Fates, hs: seq<Happening>, k: nat, commits: bool)
    returns (more: seq<Happening>)
    requires var s := History(fate, hs); s.position + k <= |s.log|
    ensures ReadsSome(fate, History(fate, hs), History(fate, more), k, commits)
    ensures Remembering(hs) ==> Remembering(more)
  {
    if k == 0 {
      more := hs;
    } else {
      var some := ReadEach(fate, hs, k - 1, commits);
      OnePoll(fate, History(fate, some), commits);
      more := Extended(fate, some, Poll(1, Calm(commits)));
      ReadsCompose(fate, History(fate, hs), History(fate, some), History(fate, more), k - 1, commits);
    }
  }

  lemma {:induction false} ProduceAll(fate: Fates, log: seq<Message>) returns (hs: seq<Happening>)
    ensures History(fate, hs) == START.(log := log) && Remembering(hs)
  {
    if log == [] {
      hs := [];
    } else {
      var n := |log| - 1;
      hs := ProduceAll(fate, log[..n]);
      hs := Extended(fate, hs, Produce(log[n]));
      assert log[..n] + [log[n]] == log;
    }
  }

  /** Every row of these messages has been a batch of its own, and nothing else has been a batch. */
  ghost predicate Remembers(fate: Fates, t: Table, messages: seq<Message>, c: Cluster) {
    forall r | r in RowsOnce(fate, messages, c) :: [r] in t.tokens
  }

  ghost predicate OnlySingles(t: Table) {
    forall b <- t.tokens :: |b| == 1
  }

  lemma {:induction false} FirstReadRemembers(fate: Fates, t: Table, messages: seq<Message>, c: Cluster)
    requires OnlySingles(t)
    ensures t.tokens <= Read(fate, t, messages, c).tokens && OnlySingles(Read(fate, t, messages, c))
    ensures Remembers(fate, Read(fate, t, messages, c), messages, c)
  {
    if messages != [] {
      FirstReadRemembers(fate, t, messages[..|messages| - 1], c);
    }
  }

  /** Reading again what is remembered adds nothing. */
  lemma {:induction false} SecondReadAddsNothing(fate: Fates, t: Table, messages: seq<Message>, c: Cluster)
    requires Remembers(fate, t, messages, c)
    ensures var t' := Read(fate, t, messages, c); t'.rows == t.rows && t'.tokens == t.tokens
  {
    if messages != [] {
      var n := |messages| - 1;
      SecondReadAddsNothing(fate, t, messages[..n], c);
      if fate(messages[n]).Stored? && fate(messages[n]).cluster == c {
        assert fate(messages[n]).row in RowsOnce(fate, messages, c);
      }
    }
  }

  lemma {:induction false} AppendedIsShown(rows: seq<EventRow>, r: EventRow)
    ensures KeyOf(r) in Final(rows + [r]) && Final(rows + [r])[KeyOf(r)] == r
  {
    assert (rows + [r])[..|rows|] == rows;
  }

  lemma {:induction false} ReadAll(fate: Fates, hs: seq<Happening>, log: seq<Message>, c: Cluster, commits: bool)
    returns (more: seq<Happening>)
    requires Remembering(hs) && History(fate, hs).log == log && History(fate, hs).position == 0
    ensures var s, s' := History(fate, hs), History(fate, more);
            && s'.log == log && s'.tables.At(c) == Read(fate, s.tables.At(c), log, c) && LettersFrom(fate, s, s')
            && s'.committed == if commits && log != [] then |log| else s.committed
    ensures Remembering(more)
  {
    more := ReadEach(fate, hs, |log|, commits);
    assert log[0..|log|] == log;
  }

  /** All is read once, one by one, no commit takes effect, and the consumer restarts. */
  lemma {:induction false} ReadOnce(fate: Fates, log: seq<Message>, c: Cluster) returns (hs: seq<Happening>)
    ensures Remembering(hs)
    ensures var s := History(fate, hs);
            && s.log == log && s.position == 0 && s.committed == 0 && LettersFrom(fate, START.(log := log), s)
            && Remembers(fate, s.tables.At(c), log, c) && OnlySingles(s.tables.At(c))
  {
    var start := ProduceAll(fate, log);
    FirstReadRemembers(fate, EMPTY, log, c);
    hs := ReadAll(fate, start, log, c, false);
    hs := Extended(fate, hs, Restart);
  }

  /* one batch that dies in one cluster's insert */

  predicate OneEach(buckets: seq<Bucket>) {
    forall i, j | 0 <= i < j < |buckets| :: buckets[i].cluster != buckets[j].cluster
  }

  predicate Absent(buckets: seq<Bucket>, c: Cluster) {
    forall i | 0 <= i < |buckets| :: buckets[i].cluster != c
  }

  function RowsFor(buckets: seq<Bucket>, c: Cluster): seq<EventRow> {
    if buckets == [] then []
    else
      var n := |buckets| - 1;
      if buckets[n].cluster == c then buckets[n].rows else RowsFor(buckets[..n], c)
  }

  lemma {:induction false} OneMoreBucket(front: seq<Bucket>, last: Bucket)
    ensures forall d :: Absent(front + [last], d) <==> Absent(front, d) && last.cluster != d
    ensures OneEach(front + [last]) <==> OneEach(front) && Absent(front, last.cluster)
  {
    var all := front + [last];
    assert all[|front|] == last;
    assert forall i | 0 <= i < |front| :: all[i] == front[i];
  }

  lemma {:induction false} PlaceAddsCluster(buckets: seq<Bucket>, c: Cluster, row: EventRow, d: Cluster)
    ensures Absent(Place(buckets, c, row), d) <==> Absent(buckets, d) && d != c
  {
    if buckets == [] {
      OneMoreBucket([], Bucket(c, [row]));
      assert Place(buckets, c, row) == [] + [Bucket(c, [row])];
    } else {
      var n := |buckets| - 1;
      var front, last := buckets[..n], buckets[n];
      OneMoreBucket(front, last);
      assert buckets == front + [last];
      if last.cluster == c {
        OneMoreBucket(front, Bucket(c, last.rows + [row]));
        assert Place(buckets, c, row) == front + [Bucket(c, last.rows + [row])];
      } else {
        PlaceAddsCluster(front, c, row, d);
        OneMoreBucket(Place(front, c, row), last);
      }
    }
  }

  lemma {:induction false} PlaceKeepsApart(buckets: seq<Bucket>, c: Cluster, row: EventRow)
    requires OneEach(buckets)
    ensures OneEach(Place(buckets, c, row))
  {
    if buckets != [] {
      var n := |buckets| - 1;
      var front, last := buckets[..n], buckets[n];
      OneMoreBucket(front, last);
      assert buckets == front + [last];
      if last.cluster == c {
        OneMoreBucket(front, Bucket(c, last.rows + [row]));
        assert Place(buckets, c, row) == front + [Bucket(c, last.rows + [row])];
      } else {
        PlaceKeepsApart(front, c, row);
        PlaceAddsCluster(front, c, row, last.cluster);
        OneMoreBucket(Place(front, c, row), last);
      }
    }
  }

  lemma {:induction false} PlaceAddsRow(buckets: seq<Bucket>, c: Cluster, row: EventRow, d: Cluster)
    ensures RowsFor(Place(buckets, c, row), d) == RowsFor(buckets, d) + if d == c then [row] else []
  {
    if buckets != [] {
      var n := |buckets| - 1;
      var placed := Place(buckets, c, row);
      if buckets[n].cluster == c {
        assert placed[..n] == buckets[..n];
      } else {
        PlaceAddsRow(buckets[..n], c, row, d);
        assert placed[..|placed| - 1] == Place(buckets[..n], c, row);
      }
    }
  }

  lemma {:induction false} BucketHoldsRows(fate: Fates, batch: seq<Message>, c: Cluster)
    ensures var buckets := Classify(fate, batch).buckets;
            && OneEach(buckets) && RowsFor(buckets, c) == RowsOnce(fate, batch, c)
            && (Absent(buckets, c) ==> RowsOnce(fate, batch, c) == [])
  {
    if batch != [] {
      var n := |batch| - 1;
      BucketHoldsRows(fate, batch[..n], c);
      if fate(batch[n]).Stored? {
        var (before, d, row) := (Classify(fate, batch[..n]).buckets, fate(batch[n]).cluster, fate(batch[n]).row);
        PlaceKeepsApart(before, d, row);
        PlaceAddsCluster(before, d, row, c);
        PlaceAddsRow(before, d, row, c);
      }
    }
  }

  /** The process dies in the insert into one cluster, which lands this much; other inserts are fine. */
  function DiesIn(c: Cluster, landed: set<nat>): Faults {
    var fine, dies := Tries(Returned(Acknowledged), Returned(Acknowledged)),
                      Tries(Died(landed, landed), Returned(Acknowledged));
    match c
    case Us => Faults(dies, fine, DlqAccepted, false, true)
    case Eu => Faults(fine, dies, DlqAccepted, false, true)
  }

  lemma {:induction false} DyingInserts(p: Phase, buckets: seq<Bucket>, c: Cluster, landed: set<nat>)
    requires p.alive && OneEach(buckets)
    ensures var q := InsertAll(p, buckets, DiesIn(c, landed));
            && q.dead == p.dead && (q.alive <==> Absent(buckets, c))
            && q.tables.At(c) == if q.alive then p.tables.At(c)
                                 else Insert(p.tables.At(c), RowsFor(buckets, c), Failed(landed, landed))
  {
    if buckets != [] {
      var n := |buckets| - 1;
      DyingInserts(p, buckets[..n], c, landed);
      if buckets[n].cluster == c {
        assert Absent(buckets[..n], c);
      }
    }
  }

  lemma {:induction false} OneLands(batch: seq<EventRow>, i: nat)
    requires i < |batch|
    ensures Landed(batch, {i}) == [batch[i]]
  {
    var n := |batch| - 1;
    if i < n {
      OneLands(batch[..n], i);
    } else {
      NoneLand(batch[..n], {i});
    }
  }

  lemma {:induction false} NoneLand(batch: seq<EventRow>, positions: set<nat>)
    requires forall i | 0 <= i < |batch| :: i !in positions
    ensures Landed(batch, positions) == []
  {
    if batch != [] {
      NoneLand(batch[..|batch| - 1], positions);
    }
  }

  /** The whole log comes as one batch whose insert dies with just one row landed. */
  lemma {:induction false} OneRowLands(fate: Fates, hs: seq<Happening>, log: seq<Message>, c: Cluster, i: nat)
    returns (more: seq<Happening>)
    requires var s := History(fate, hs);
             && Remembering(hs) && s.log == log && s.position == 0 && s.committed == 0
             && OnlySingles(s.tables.At(c))
    requires 2 <= |RowsOnce(fate, log, c)| && i < |RowsOnce(fate, log, c)|
    ensures Remembering(more)
    ensures var s, s' := History(fate, hs), History(fate, more);
            && s'.log == log && s'.position == 0 && s'.committed == 0 && s'.dlq == s.dlq
            && s'.tables.At(c).rows == s.tables.At(c).rows + [RowsOnce(fate, log, c)[i]]
            && s'.tables.At(c).tokens == s.tables.At(c).tokens
  {
    var s, rows := History(fate, hs), RowsOnce(fate, log, c);
    more := Extended(fate, hs, Poll(|log|, DiesIn(c, {i})));
    assert log[0..|log|] == log;
    var sorted := Classify(fate, log);
    BucketHoldsRows(fate, log, c);
    DyingInserts(Phase(s.tables, sorted.dead, true), sorted.buckets, c, {i});
    OneLands(rows, i);
    assert rows !in s.tables.At(c).tokens;
  }

  /** All is then read again with every token remembered: that row stays on top. */
  lemma {:induction false} RowComesBack(fate: Fates, log: seq<Message>, c: Cluster, i: nat)
    returns (hs: seq<Happening>)
    requires 2 <= |RowsOnce(fate, log, c)| && i < |RowsOnce(fate, log, c)|
    ensures Remembering(hs)
    ensures var (s, r) := (History(fate, hs), RowsOnce(fate, log, c)[i]);
            && s.log == log && s.committed == |log|
            && LettersFrom(fate, START.(log := log), s)
            && KeyOf(r) in Final(s.tables.At(c).rows) && Final(s.tables.At(c).rows)[KeyOf(r)] == r
  {
    var once := ReadOnce(fate, log, c);
    var died := OneRowLands(fate, once, log, c, i);
    SecondReadAddsNothing(fate, History(fate, died).tables.At(c), log, c);
    AppendedIsShown(History(fate, once).tables.At(c).rows, RowsOnce(fate, log, c)[i]);
    hs := ReadAll(fate, died, log, c, true);
  }

  /** If this history committed this log without giving up an insert, the cluster shows the exactly-once view. */
  ghost predicate ShowsOnce(fate: Fates, log: seq<Message>, hs: seq<Happening>, c: Cluster) {
    var s := History(fate, hs);
    s.log == log && s.committed == |log| && (forall d <- s.dlq :: d.reason != InsertFailed)
    ==> Final(s.tables.At(c).rows) == Final(RowsOnce(fate, log, c))
  }

  /** Whatever happens while this log is consumed. */
  ghost predicate AlwaysOnce(fate: Fates, log: seq<Message>) {
    forall hs, c :: ShowsOnce(fate, log, hs, c)
  }

  /** Whatever happens short of a token leaving its window. */
  ghost predicate OnceWhileRemembered(fate: Fates, log: seq<Message>) {
    forall hs, c :: Remembering(hs) ==> ShowsOnce(fate, log, hs, c)
  }

  /** Rejected messages are not mistaken for failed inserts. */
  ghost predicate RejectsHonestly(fate: Fates) {
    forall m :: fate(m).Dead? ==> fate(m).letter.reason != InsertFailed
  }

  lemma {:induction false} DeployedRejectsHonestly(cfg: Config)
    ensures RejectsHonestly(FateIn(cfg))
  {
  }

  /**
   * Effectively once for every history, exactly when messages that share a dedup key give the same row;
   * and remembering every token forever would not help.
   */
  lemma {:induction false} EffectivelyOnceExactly(fate: Fates, log: seq<Message>)
    requires RejectsHonestly(fate)
    ensures AlwaysOnce(fate, log) <==> KeysIdentify(fate, log)
    ensures OnceWhileRemembered(fate, log) <==> KeysIdentify(fate, log)
  {
    if KeysIdentify(fate, log) {
      forall hs, c
        ensures ShowsOnce(fate, log, hs, c)
      {
        var s := History(fate, hs);
        if s.log == log && s.committed == |log| && (forall d <- s.dlq :: d.reason != InsertFailed) {
          EffectivelyOnce(fate, hs, c);
        }
      }
    } else {
      var c, i := HiddenRow(fate, log);
      var hs := RowComesBack(fate, log, c, i);
      assert !ShowsOnce(fate, log, hs, c);
    }
  }

  /** Of two different rows with one key FINAL hides one. */
  lemma {:induction false} HiddenOfTwo(rows: seq<EventRow>, x: EventRow, y: EventRow) returns (k: nat)
    requires x in rows && y in rows && KeyOf(x) == KeyOf(y) && x != y
    ensures 2 <= |rows| && k < |rows|
    ensures KeyOf(rows[k]) in Final(rows) && Final(rows)[KeyOf(rows[k])] != rows[k]
  {
    var a :| 0 <= a < |rows| && rows[a] == x;
    var b :| 0 <= b < |rows| && rows[b] == y;
    FinalKeys(rows);
    k := if Final(rows)[KeyOf(x)] == x then b else a;
  }

  /** If two rows share a key, the exactly-once view hides one of them. */
  lemma {:induction false} HiddenRow(fate: Fates, log: seq<Message>) returns (c: Cluster, k: nat)
    requires !KeysIdentify(fate, log)
    ensures var rows := RowsOnce(fate, log, c);
            && 2 <= |rows| && k < |rows|
            && KeyOf(rows[k]) in Final(rows) && Final(rows)[KeyOf(rows[k])] != rows[k]
  {
    var i, j :| 0 <= i < |log| && 0 <= j < |log| && fate(log[i]).Stored? && fate(log[j]).Stored?
                && fate(log[i]).cluster == fate(log[j]).cluster
                && KeyOf(fate(log[i]).row) == KeyOf(fate(log[j]).row)
                && fate(log[i]).row != fate(log[j]).row;
    c := fate(log[i]).cluster;
    RowsOnceAre(fate, log, c);
    assert RowHasSource(fate, log, c, fate(log[i]).row) && RowHasSource(fate, log, c, fate(log[j]).row);
    k := HiddenOfTwo(RowsOnce(fate, log, c), fate(log[i]).row, fate(log[j]).row);
  }

  /** Documents stored in one cluster under one dedup key are serialised alike. */
  ghost predicate KeysIdentifyMessages(cfg: Config, log: seq<Message>) {
    forall i, j | 0 <= i < |log| && 0 <= j < |log| && FateOf(cfg, log[i]).Stored? && FateOf(cfg, log[j]).Stored?
                  && FateOf(cfg, log[i]).cluster == FateOf(cfg, log[j]).cluster
                  && KeyOf(FateOf(cfg, log[i]).row) == KeyOf(FateOf(cfg, log[j]).row) ::
      Serialised(log[i].json) == Serialised(log[j].json)
  }

  lemma {:induction false} RowTellsMessage(cfg: Config, a: Message, b: Message)
    requires FateOf(cfg, a).Stored? && FateOf(cfg, b).Stored?
    ensures FateOf(cfg, a).row == FateOf(cfg, b).row <==> Serialised(a.json) == Serialised(b.json)
  {
    RowsIdentifyMessages(a.json, b.json, cfg.instant);
  }

  lemma {:induction false} SameRowsSameMessages(cfg: Config, log: seq<Message>)
    ensures KeysIdentify(FateIn(cfg), log) <==> KeysIdentifyMessages(cfg, log)
  {
    forall i, j | 0 <= i < |log| && 0 <= j < |log| && FateOf(cfg, log[i]).Stored? && FateOf(cfg, log[j]).Stored?
      ensures FateOf(cfg, log[i]).row == FateOf(cfg, log[j]).row <==> Serialised(log[i].json) == Serialised(log[j].json)
    {
      RowTellsMessage(cfg, log[i], log[j]);
    }
    assert forall i | 0 <= i < |log| :: FateIn(cfg)(log[i]) == FateOf(cfg, log[i]);
  }

  /** The deployed consumer: a row carries its message's text, so same-key messages must be serialised alike. */
  lemma {:induction false} DeployedEffectivelyOnceExactly(cfg: Config, log: seq<Message>)
    ensures AlwaysOnce(FateIn(cfg), log) <==> KeysIdentifyMessages(cfg, log)
  {
    DeployedRejectsHonestly(cfg);
    EffectivelyOnceExactly(FateIn(cfg), log);
    SameRowsSameMessages(cfg, log);
  }

  /* ---------------- the consumer as it changes its state ---------------- */

  lemma {:induction false} TablesComeFromPhase(s: System, n: nat, p: Phase, f: Faults)
    ensures Conclude(s.(tables := p.tables), n, p, f) == Conclude(s, n, p, f)
  {
  }

  lemma {:induction false} DeadStays(p: Phase, buckets: seq<Bucket>, i: nat, f: Faults)
    requires i <= |buckets| && !InsertAll(p, buckets[..i], f).alive
    ensures InsertAll(p, buckets, f) == InsertAll(p, buckets[..i], f)
  {
    if i < |buckets| {
      var n := |buckets| - 1;
      assert buckets[..n][..i] == buckets[..i];
      DeadStays(p, buckets[..n], i, f);
    } else {
      assert buckets[..i] == buckets;
    }
  }

  class EventsConsumer {
    const cfg: Config
    const us: ClickHouse
    const eu: ClickHouse
    var log: seq<Message>
    var position: nat
    var committed: nat
    var dlq: seq<DeadLetter>
    var unmapped: nat
    var deadLettered: nat

    ghost function Stores(): Tables
      reads this, us, eu
    {
      Tables(us.State(), eu.State())
    }

    ghost function State(): System
      reads this, us, eu
    {
      System(log, position, committed, Stores(), dlq, unmapped, deadLettered)
    }

    constructor (cfg: Config)
      ensures State() == START && this.cfg == cfg && us != eu && fresh(us) && fresh(eu)
    {
      this.cfg := cfg;
      us := new ClickHouse();
      eu := new ClickHouse();
      log, position, committed, dlq, unmapped, deadLettered := [], 0, 0, [], 0, 0;
    }

    /** One insertRows call against the cluster's client; a process that dies in it answers nothing. */
    method InsertInto(b: Bucket, outcome: Outcome) returns (ok: bool, alive: bool)
      requires us != eu
      modifies us, eu
      ensures alive == outcome.Returned?
      ensures alive ==> ok == Answers(b, outcome.attempt)
      ensures Stores() == Tried(Phase(old(Stores()), [], true), b, outcome.Effect()).tables
    {
      alive := outcome.Returned?;
      match b.cluster {
        case Us => ok := us.InsertRows(b.rows, outcome.Effect());
        case Eu => ok := eu.InsertRows(b.rows, outcome.Effect());
      }
    }

    /** The classification loop: every message goes to its cluster's bucket, to the dead letters, or is blank. */
    method ClassifyBatch(batch: seq<Message>) returns (buckets: seq<Bucket>, dead: seq<DeadLetter>)
      modifies `unmapped
      ensures Classified(buckets, dead) == Classify(FateIn(cfg), batch)
      ensures unmapped == old(unmapped) + |dead|
    {
      buckets, dead := [], [];
      for i := 0 to |batch|
        invariant Classified(buckets, dead) == Classify(FateIn(cfg), batch[..i])
        invariant unmapped == old(unmapped) + |dead|
      {
        assert batch[..i + 1][..i] == batch[..i];
        match FateOf(cfg, batch[i]) {
          case Skipped =>
          case Stored(c, row) =>
            buckets := Place(buckets, c, row);
          case Dead(letter) =>
            unmapped := unmapped + 1;
            dead := dead + [letter];
        }
      }
      assert batch[..|batch|] == batch;
    }

    /** The insert loop over the clusters, each with one retry. */
    method InsertBuckets(buckets: seq<Bucket>, rejected: seq<DeadLetter>, f: Faults)
      returns (dead: seq<DeadLetter>, alive: bool)
      requires us != eu
      modifies us, eu
      ensures Phase(Stores(), dead, alive) == InsertAll(Phase(old(Stores()), rejected, true), buckets, f)
    {
      ghost var p := Phase(Stores(), rejected, true);
      dead := rejected;
      for i := 0 to |buckets|
        invariant Phase(Stores(), dead, true) == InsertAll(p, buckets[..i], f)
      {
        assert buckets[..i + 1][..i] == buckets[..i];
        var b := buckets[i];
        var tries := TriesFor(f, b.cluster);
        var ok;
        ok, alive := InsertInto(b, tries.first);
        if alive && !ok {
          ok, alive := InsertInto(b, tries.second);
          if alive && !ok {
            dead := dead + FailedLetters(b.rows);
          }
        }
        if !alive {
          DeadStays(p, buckets, i + 1, f);
          return;
        }
      }
      assert buckets[..|buckets|] == buckets;
      alive := true;
    }

    method ConcludeBatch(n: nat, dead: seq<DeadLetter>, alive: bool, f: Faults) returns (done: bool)
      requires us != eu
      modifies this
      ensures State() == Conclude(old(State()), n, Phase(old(Stores()), dead, alive), f)
      ensures done ==> position == old(position) + n
      ensures !done ==> committed == old(committed)
    {
      if !alive {
        position, unmapped, deadLettered := committed, 0, 0;
        return false;
      }
      if dead != [] {
        if f.dlq.DlqRejected? {
          dlq := dlq + LettersAt(dead, f.dlq.written);
          if !f.resumes {
            position := committed;
          }
          return false;
        }
        dlq := dlq + dead;
        deadLettered := deadLettered + |dead|;
      }
      position := position + n;
      if f.commits {
        committed := position;
      }
      done := true;
    }

    /** Handles the next n messages; `done` when the batch's offsets are resolved. */
    method EachBatch(n: nat, f: Faults) returns (done: bool)
      requires us != eu && position + n <= |log|
      modifies this, us, eu
      ensures State() == PollBatch(FateIn(cfg), old(State()), n, f)
      ensures done ==> position == old(position) + n
      ensures !done ==> committed == old(committed)
    {
      ghost var s := State();
      var buckets, rejected := ClassifyBatch(log[position..position + n]);
      ghost var classified := s.(unmapped := s.unmapped + |rejected|);
      assert State() == classified;
      var dead, alive := InsertBuckets(buckets, rejected, f);
      assert State() == classified.(tables := Stores());
      ghost var p := Phase(Stores(), dead, alive);
      TablesComeFromPhase(classified, n, p, f);
      PollConcludes(FateIn(cfg), s, n, f, Classified(buckets, rejected), p);
      done := ConcludeBatch(n, dead, alive, f);
    }
  }
}
