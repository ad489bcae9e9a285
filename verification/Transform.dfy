/**
 * Enriched collector message -> flat ClickHouse row (packages/pipeline/src/transform.ts).
 *
 * JSON text is modelled by the value it stands for, with the order of an object's members kept.
 */
module Transform {
  import opened Wrappers

  /** A parsed JSON number; a literal such as 1e999 parses to an infinity. */
  datatype Number = Finite(value: real) | NonFinite

  datatype Json =
    | Null
    | Bool(flag: bool)
    | Num(number: Number)
    | Str(text: string)
    | Arr(items: seq<Json>)
    | Obj(members: seq<(string, Json)>)

  function DigitsValue(s: string): nat {
    if s == "" then 0
    else
      var n := |s| - 1;
      10 * DigitsValue(s[..n]) + if '0' <= s[n] <= '9' then s[n] as nat - '0' as nat else 0
  }

  const MAX_INDEX := 4_294_967_294

  /** A name written as an array index is: decimal, without leading zeros. */
  predicate IsIndex(name: string) {
    && name != ""
    && (forall i | 0 <= i < |name| :: '0' <= name[i] <= '9')
    && (name[0] == '0' ==> name == "0")
    && DigitsValue(name) <= MAX_INDEX
  }

  /** An object keeps its array indices ahead of its other names, in ascending order. */
  predicate ComesBefore(a: string, b: string) {
    IsIndex(b) ==> IsIndex(a) && DigitsValue(a) < DigitsValue(b)
  }

  /** What JSON.parse can yield: a name occurs once in an object, however often the text repeats it. */
  predicate Parsed(v: Json) {
    match v
    case Arr(items) => forall i | 0 <= i < |items| :: Parsed(items[i])
    case Obj(members) =>
      && (forall i, j | 0 <= i < j < |members| ::
            members[i].0 != members[j].0 && ComesBefore(members[i].0, members[j].0))
      && (forall i | 0 <= i < |members| :: Parsed(members[i].1))
    case _ => true
  }

  type Document = v: Json | Parsed(v) witness Null

  /** A stored row. `timestamp` is the DateTime64(3) column, in milliseconds. */
  datatype EventRow = EventRow(
    tenantId: string,
    event: string,
    eventId: string,
    timestamp: int,
    taskId: string,
    runId: string,
    sessionId: string,
    taskType: string,
    agentName: string,
    agentVersion: string,
    toolName: string,
    model: string,
    status: string,
    verification: string,
    initiator: string,
    retryOfStepId: string,
    tokensIn: real,
    tokensOut: real,
    latencyMs: real,
    costUsd: real,
    ratingValue: real,
    editMagnitudeValue: real,
    responseLatencyMs: real,
    retentionDays: int,
    payload: Json)

  /** The value of the member of that name. */
  function Lookup(members: seq<(string, Json)>, name: string): Option<Json> {
    if members == [] then None
    else
      var n := |members| - 1;
      if members[n].0 == name then Some(members[n].1) else Lookup(members[..n], name)
  }

  /** A missing key reads as undefined, here None. */
  function Field(v: Json, name: string): Option<Json> {
    if v.Obj? then Lookup(v.members, name) else None
  }

  /** JSON.stringify: the text of a number that is not finite is null. */
  function Serialised(v: Json): Json {
    match v
    case Num(NonFinite) => Null
    case Arr(items) => Arr(seq(|items|, i requires 0 <= i < |items| => Serialised(items[i])))
    case Obj(members) =>
      Obj(seq(|members|, i requires 0 <= i < |members| => (members[i].0, Serialised(members[i].1))))
    case _ => v
  }

  predicate NonEmptyText(v: Option<Json>) {
    v.Some? && v.value.Str? && v.value.text != ""
  }

  predicate IsHex(c: char) {
    '0' <= c <= '9' || 'a' <= c <= 'f' || 'A' <= c <= 'F'
  }

  /** The 8-4-4-4-12 hexadecimal shape. */
  predicate IsUuid(s: string) {
    && |s| == 36
    && forall i | 0 <= i < 36 ::
         if i == 8 || i == 13 || i == 18 || i == 23 then s[i] == '-' else IsHex(s[i])
  }

  function LowerHex(c: char): char {
    if 'A' <= c <= 'F' then ('a' as int + (c as int - 'A' as int)) as char else c
  }

  /** A UUID column compares by value, so letter case is not part of it. */
  function UuidValue(s: string): (r: string)
    ensures |r| == |s|
  {
    seq(|s|, i requires 0 <= i < |s| => LowerHex(s[i]))
  }

  function Text(v: Option<Json>): string {
    if v.Some? && v.value.Str? then v.value.text else ""
  }

  function Amount(v: Option<Json>): real {
    if v.Some? && v.value.Num? && v.value.number.Finite? then v.value.number.value else 0.0
  }

  function Nested(v: Option<Json>, name: string): Option<Json> {
    if v.Some? then Field(v.value, name) else None
  }

  /** JavaScript's Math.round: halves go up. */
  function RoundHalfUp(x: real): int {
    (x + 0.5).Floor
  }

  function RetentionDays(v: Option<Json>): int {
    if v.Some? && v.value.Num? && v.value.number.Finite? then
      var days := RoundHalfUp(v.value.number.value);
      var atLeastOne := if days < 1 then 1 else days;
      if 3650 < atLeastOne then 3650 else atLeastOne
    else
      365
  }

  /** The required shape: what must be present, and of which type, for a message to map. */
  predicate Mappable(m: Json) {
    && m.Obj?
    && NonEmptyText(Field(m, "tenant_id"))
    && NonEmptyText(Field(m, "event"))
    && NonEmptyText(Field(m, "event_id")) && IsUuid(Text(Field(m, "event_id")))
    && NonEmptyText(Field(m, "timestamp"))
    && NonEmptyText(Field(m, "task_id"))
    && NonEmptyText(Field(m, "run_id"))
    && NonEmptyText(Field(m, "task_type"))
    && NonEmptyText(Nested(Field(m, "agent"), "name"))
    && (Nested(Field(m, "agent"), "version").Some? ==> Nested(Field(m, "agent"), "version").value.Str?)
  }

  /** The ways a column may read a value: str, num and retentionDays. */
  datatype Cell = Cell(text: string, amount: real, days: int)

  function CellOf(v: Option<Json>): Cell {
    Cell(Text(v), Amount(v), RetentionDays(v))
  }

  /** Reads a member of the message, and a member of one of its members. */
  datatype Reader = Reader(field: string -> Cell, nested: (string, string) -> Cell)

  function ReaderOf(m: Json): Reader {
    Reader((name: string) => CellOf(Field(m, name)),
           (outer: string, name: string) => CellOf(Nested(Field(m, outer), name)))
  }

  /** The text columns of a row, and its number columns. */
  datatype Dimensions = Dimensions(
    tenantId: string,
    event: string,
    taskId: string,
    runId: string,
    sessionId: string,
    taskType: string,
    agentName: string,
    agentVersion: string,
    toolName: string,
    model: string,
    status: string,
    verification: string,
    initiator: string,
    retryOfStepId: string)

  datatype Measures = Measures(
    tokensIn: real,
    tokensOut: real,
    latencyMs: real,
    costUsd: real,
    ratingValue: real,
    editMagnitudeValue: real,
    responseLatencyMs: real)

  function DimensionsIn(r: Reader): Dimensions {
    Dimensions(
      r.field("tenant_id").text,
      r.field("event").text,
      r.field("task_id").text,
      r.field("run_id").text,
      r.field("session_id").text,
      r.field("task_type").text,
      r.nested("agent", "name").text,
      r.nested("agent", "version").text,
      r.field("tool_name").text,
      r.field("model").text,
      r.field("status").text,
      r.field("verification").text,
      r.field("initiator").text,
      r.field("retry_of_step_id").text)
  }

  function MeasuresIn(r: Reader): Measures {
    Measures(
      r.field("tokens_in").amount,
      r.field("tokens_out").amount,
      r.field("latency_ms").amount,
      r.field("cost_usd").amount,
      r.nested("rating", "value").amount,
      r.nested("edit_magnitude", "value").amount,
      r.field("response_latency_ms").amount)
  }

  function RowWith(d: Dimensions, n: Measures, eventId: string, timestamp: int, days: int, payload: Json): EventRow {
    EventRow(d.tenantId, d.event, eventId, timestamp, d.taskId, d.runId, d.sessionId, d.taskType, d.agentName,
             d.agentVersion, d.toolName, d.model, d.status, d.verification, d.initiator, d.retryOfStepId,
             n.tokensIn, n.tokensOut, n.latencyMs, n.costUsd, n.ratingValue, n.editMagnitudeValue,
             n.responseLatencyMs, days, payload)
  }

  /** `instant` is the column's reading of a timestamp text; two texts may name one instant. */
  function Columns(r: Reader, instant: string -> int, payload: Json): EventRow {
    RowWith(DimensionsIn(r), MeasuresIn(r), UuidValue(r.field("event_id").text), instant(r.field("timestamp").text),
            r.field("retention_days").days, payload)
  }

  function ToRow(m: Json, instant: string -> int): Option<EventRow> {
    if Mappable(m) then Some(Columns(ReaderOf(m), instant, Serialised(m))) else None
  }

  function SerialisedOption(v: Option<Json>): Option<Json> {
    if v.Some? then Some(Serialised(v.value)) else None
  }

  lemma {:induction false} LookupSerialised(members: seq<(string, Json)>, name: string)
    ensures Lookup(Serialised(Obj(members)).members, name) == SerialisedOption(Lookup(members, name))
  {
    if members != [] {
      var n := |members| - 1;
      LookupSerialised(members[..n], name);
      assert Serialised(Obj(members)).members[..n] == Serialised(Obj(members[..n])).members;
    }
  }

  /** No column tells two values apart: they read alike as texts, as numbers and as retention windows. */
  ghost predicate ReadAlike(v: Option<Json>, w: Option<Json>) {
    && v.Some? == w.Some?
    && (v.Some? ==> v.value.Str? == w.value.Str?)
    && CellOf(v) == CellOf(w) && NonEmptyText(v) == NonEmptyText(w)
  }

  lemma {:induction false} SerialisedReadsAlike(v: Option<Json>)
    ensures ReadAlike(v, SerialisedOption(v))
  {
  }

  lemma {:induction false} FieldSerialised(m: Json, name: string)
    ensures Field(Serialised(m), name) == SerialisedOption(Field(m, name))
    ensures ReadAlike(Field(m, name), Field(Serialised(m), name))
  {
    if m.Obj? {
      LookupSerialised(m.members, name);
    }
    SerialisedReadsAlike(Field(m, name));
  }

  lemma {:induction false} NestedSerialised(m: Json, outer: string, name: string)
    ensures ReadAlike(Nested(Field(m, outer), name), Nested(Field(Serialised(m), outer), name))
  {
    FieldSerialised(m, outer);
    if Field(m, outer).Some? {
      FieldSerialised(Field(m, outer).value, name);
    }
  }

  /** All the columns but the payload read a message and its serialised form alike. */
  ghost predicate AllReadAlike(a: Reader, b: Reader) {
    && (forall name :: a.field(name) == b.field(name))
    && (forall outer, name :: a.nested(outer, name) == b.nested(outer, name))
  }

  lemma {:induction false} SerialisedAllReadsAlike(m: Json)
    ensures AllReadAlike(ReaderOf(m), ReaderOf(Serialised(m)))
  {
    forall name
      ensures ReaderOf(m).field(name) == ReaderOf(Serialised(m)).field(name)
    {
      FieldSerialised(m, name);
    }
    forall outer, name
      ensures ReaderOf(m).nested(outer, name) == ReaderOf(Serialised(m)).nested(outer, name)
    {
      NestedSerialised(m, outer, name);
    }
  }

  lemma {:induction false} AlikeDimensionsAlike(a: Reader, b: Reader)
    requires AllReadAlike(a, b)
    ensures DimensionsIn(a) == DimensionsIn(b)
  {
  }

  lemma {:induction false} AlikeMeasuresAlike(a: Reader, b: Reader)
    requires AllReadAlike(a, b)
    ensures MeasuresIn(a) == MeasuresIn(b)
  {
  }

  lemma {:induction false} AlikeRowsAlike(a: Reader, b: Reader, instant: string -> int, payload: Json)
    requires AllReadAlike(a, b)
    ensures Columns(a, instant, payload) == Columns(b, instant, payload)
  {
    AlikeDimensionsAlike(a, b);
    AlikeMeasuresAlike(a, b);
    AlikeIdentityAlike(a, b);
    SameParts(a, b, instant, payload);
  }

  lemma {:induction false} AlikeIdentityAlike(a: Reader, b: Reader)
    requires AllReadAlike(a, b)
    ensures a.field("event_id") == b.field("event_id") && a.field("timestamp") == b.field("timestamp")
    ensures a.field("retention_days") == b.field("retention_days")
  {
  }

  lemma {:induction false} SameParts(a: Reader, b: Reader, instant: string -> int, payload: Json)
    requires DimensionsIn(a) == DimensionsIn(b) && MeasuresIn(a) == MeasuresIn(b)
    requires a.field("event_id") == b.field("event_id") && a.field("timestamp") == b.field("timestamp")
    requires a.field("retention_days") == b.field("retention_days")
    ensures Columns(a, instant, payload) == Columns(b, instant, payload)
  {
  }

  lemma {:induction false} AlikeMapAlike(m: Json)
    ensures Mappable(Serialised(m)) == Mappable(m)
  {
    FieldSerialised(m, "tenant_id");
    FieldSerialised(m, "event");
    FieldSerialised(m, "event_id");
    FieldSerialised(m, "timestamp");
    FieldSerialised(m, "task_id");
    FieldSerialised(m, "run_id");
    FieldSerialised(m, "task_type");
    NestedSerialised(m, "agent", "name");
    NestedSerialised(m, "agent", "version");
  }

  /** Every number is finite. */
  predicate AllFinite(v: Json) {
    match v
    case Num(n) => n.Finite?
    case Arr(items) => forall i | 0 <= i < |items| :: AllFinite(items[i])
    case Obj(members) => forall i | 0 <= i < |members| :: AllFinite(members[i].1)
    case _ => true
  }

  /** The text holds finite numbers only, and a document of finite numbers is its own text. */
  lemma {:induction false} SerialisedIsFinite(v: Json)
    ensures AllFinite(Serialised(v))
    ensures Serialised(v) == v <==> AllFinite(v)
  {
    match v
    case Arr(items) =>
      forall i | 0 <= i < |items|
        ensures AllFinite(Serialised(items[i])) && (Serialised(items[i]) == items[i] <==> AllFinite(items[i]))
      {
        SerialisedIsFinite(items[i]);
      }
      assert AllFinite(v) ==> Serialised(v).items == items;
    case Obj(members) =>
      forall i | 0 <= i < |members|
        ensures AllFinite(Serialised(members[i].1))
        ensures Serialised(members[i].1) == members[i].1 <==> AllFinite(members[i].1)
      {
        SerialisedIsFinite(members[i].1);
      }
      assert AllFinite(v) ==> Serialised(v).members == members;
      assert Serialised(v) == v ==> forall i | 0 <= i < |members| :: Serialised(members[i].1) == members[i].1;
    case _ =>
  }

  lemma {:induction false} SerialisedTwice(v: Json)
    ensures Serialised(Serialised(v)) == Serialised(v)
  {
    match v
    case Arr(items) =>
      forall i | 0 <= i < |items|
        ensures Serialised(Serialised(items[i])) == Serialised(items[i])
      {
        SerialisedTwice(items[i]);
      }
    case Obj(members) =>
      forall i | 0 <= i < |members|
        ensures Serialised(Serialised(members[i].1)) == Serialised(members[i].1)
      {
        SerialisedTwice(members[i].1);
      }
    case _ =>
  }

  /** Parsing the serialised text gives a document again: JSON.stringify keeps names and their order. */
  lemma {:induction false} SerialisedIsDocument(v: Json)
    requires Parsed(v)
    ensures Parsed(Serialised(v))
  {
    match v
    case Arr(items) =>
      forall i | 0 <= i < |items|
        ensures Parsed(Serialised(items[i]))
      {
        SerialisedIsDocument(items[i]);
      }
    case Obj(members) =>
      forall i | 0 <= i < |members|
        ensures Parsed(Serialised(members[i].1))
      {
        SerialisedIsDocument(members[i].1);
      }
    case _ =>
  }

  /** A row is a function of the message's serialised form. */
  lemma {:induction false} RowOfSerialised(m: Json, instant: string -> int)
    ensures Mappable(Serialised(m)) == Mappable(m)
    ensures ToRow(Serialised(m), instant) == ToRow(m, instant)
  {
    SerialisedAllReadsAlike(m);
    AlikeMapAlike(m);
    AlikeRowsAlike(ReaderOf(m), ReaderOf(Serialised(m)), instant, Serialised(m));
    SerialisedTwice(m);
  }

  /** Two messages give the same row exactly when neither maps or they are serialised alike. */
  lemma {:induction false} RowsIdentifyMessages(a: Document, b: Document, instant: string -> int)
    ensures ToRow(a, instant) == ToRow(b, instant)
       <==> Serialised(a) == Serialised(b) || (!Mappable(a) && !Mappable(b))
  {
    RowOfSerialised(a, instant);
    RowOfSerialised(b, instant);
    PayloadIsSerialised(a, instant);
    PayloadIsSerialised(b, instant);
  }

  lemma {:induction false} PayloadIsSerialised(m: Json, instant: string -> int)
    ensures Mappable(m) ==> ToRow(m, instant).value.payload == Serialised(m)
  {
  }

  /** The retention window never leaves the control plane's bounds, and is the nearest whole day inside them. */
  lemma {:induction false} RetentionStaysInBounds(v: Option<Json>)
    ensures 1 <= RetentionDays(v) <= 3650
    ensures v.Some? && v.value.Num? && v.value.number.Finite? && 1.0 <= v.value.number.value <= 3650.0 ==>
              v.value.number.value - 0.5 < RetentionDays(v) as real <= v.value.number.value + 0.5
  {
  }

  /* ---------------- which member fills which column ---------------- */

  /** In a document a name is looked up to the value it stands next to. */
  lemma {:induction false} LookupIsMember(members: seq<(string, Json)>, name: string, v: Json)
    requires forall i, j | 0 <= i < j < |members| :: members[i].0 != members[j].0
    ensures Lookup(members, name) == Some(v) <==> (name, v) in members
  {
    if members != [] {
      var n := |members| - 1;
      LookupIsMember(members[..n], name, v);
      assert members == members[..n] + [members[n]];
      forall i | 0 <= i < n && members[n].0 == name
        ensures members[i] != (name, v)
      {
        assert members[i].0 != members[n].0;
      }
    }
  }

  /** The object has this member. */
  predicate Has(m: Json, name: string, v: Json) {
    m.Obj? && (name, v) in m.members
  }

  lemma {:induction false} FieldIsMember(m: Document, name: string, v: Json)
    ensures Field(m, name) == Some(v) <==> Has(m, name, v)
  {
    if m.Obj? {
      LookupIsMember(m.members, name, v);
    }
  }

  /** A text column holds the member's text, and nothing where the member is missing or no text. */
  ghost predicate TextFrom(m: Json, name: string, column: string) {
    Has(m, name, Str(column)) || (column == "" && forall t :: !Has(m, name, Str(t)))
  }

  ghost predicate NumberFrom(m: Json, name: string, column: real) {
    || Has(m, name, Num(Finite(column)))
    || (column == 0.0 && forall x :: !Has(m, name, Num(Finite(x))))
  }

  /** The column holds the member's own member, and nothing where there is none. */
  ghost predicate NestedTextFrom(m: Json, outer: string, name: string, column: string) {
    || (exists inner: Document :: Has(m, outer, inner) && TextFrom(inner, name, column))
    || (column == "" && forall inner :: !Has(m, outer, inner))
  }

  ghost predicate NestedNumberFrom(m: Json, outer: string, name: string, column: real) {
    || (exists inner: Document :: Has(m, outer, inner) && NumberFrom(inner, name, column))
    || (column == 0.0 && forall inner :: !Has(m, outer, inner))
  }

  lemma {:induction false} TextIsFrom(m: Document, name: string)
    ensures TextFrom(m, name, Text(Field(m, name)))
  {
    forall t
      ensures Has(m, name, Str(t)) <==> Field(m, name) == Some(Str(t))
    {
      FieldIsMember(m, name, Str(t));
    }
  }

  lemma {:induction false} NumberIsFrom(m: Document, name: string)
    ensures NumberFrom(m, name, Amount(Field(m, name)))
  {
    forall x
      ensures Has(m, name, Num(Finite(x))) <==> Field(m, name) == Some(Num(Finite(x)))
    {
      FieldIsMember(m, name, Num(Finite(x)));
    }
  }

  /** What a document's member holds is a document. */
  lemma {:induction false} MemberIsDocument(m: Document, name: string, v: Json)
    requires Has(m, name, v)
    ensures Parsed(v)
  {
    var i :| 0 <= i < |m.members| && m.members[i] == (name, v);
  }

  lemma {:induction false} NestedIsFrom(m: Document, outer: string, name: string)
    ensures NestedTextFrom(m, outer, name, Text(Nested(Field(m, outer), name)))
    ensures NestedNumberFrom(m, outer, name, Amount(Nested(Field(m, outer), name)))
  {
    if Field(m, outer).Some? {
      var inner := Field(m, outer).value;
      FieldIsMember(m, outer, inner);
      MemberIsDocument(m, outer, inner);
      TextIsFrom(inner, name);
      NumberIsFrom(inner, name);
    } else {
      forall inner
        ensures !Has(m, outer, inner)
      {
        FieldIsMember(m, outer, inner);
      }
    }
  }

  /** The member is there, with a text that is not empty. */
  ghost predicate HasText(m: Json, name: string) {
    exists t :: t != "" && Has(m, name, Str(t))
  }

  lemma {:induction false} NonEmptyIsText(m: Document, name: string)
    ensures NonEmptyText(Field(m, name)) <==> HasText(m, name)
  {
    if NonEmptyText(Field(m, name)) {
      FieldIsMember(m, name, Field(m, name).value);
    }
    if t :| t != "" && Has(m, name, Str(t)) {
      FieldIsMember(m, name, Str(t));
    }
  }

  /** The agent has a name, and its version, if any, is a text. */
  ghost predicate HasAgent(m: Json) {
    exists agent: Document :: Has(m, "agent", agent) && HasText(agent, "name")
                              && forall v :: Has(agent, "version", v) ==> v.Str?
  }

  lemma {:induction false} AgentIsThere(m: Document)
    ensures NonEmptyText(Nested(Field(m, "agent"), "name"))
            && (Nested(Field(m, "agent"), "version").Some? ==> Nested(Field(m, "agent"), "version").value.Str?)
       <==> HasAgent(m)
  {
    if Field(m, "agent").Some? {
      var agent := Field(m, "agent").value;
      FieldIsMember(m, "agent", agent);
      MemberIsDocument(m, "agent", agent);
      AgentIsWhole(agent);
    }
    if agent: Document :| Has(m, "agent", agent) && HasText(agent, "name")
                          && forall v :: Has(agent, "version", v) ==> v.Str? {
      FieldIsMember(m, "agent", agent);
      AgentIsWhole(agent);
    }
  }

  lemma {:induction false} AgentIsWhole(agent: Document)
    ensures NonEmptyText(Field(agent, "name")) <==> HasText(agent, "name")
    ensures (Field(agent, "version").Some? ==> Field(agent, "version").value.Str?)
       <==> forall v :: Has(agent, "version", v) ==> v.Str?
  {
    NonEmptyIsText(agent, "name");
    forall v
      ensures Has(agent, "version", v) <==> Field(agent, "version") == Some(v)
    {
      FieldIsMember(agent, "version", v);
    }
  }

  /** A message maps exactly if its six other required texts and its agent are there, and its event id is a UUID. */
  lemma {:induction false} MapsExactly(m: Document, instant: string -> int)
    ensures ToRow(m, instant).Some?
       <==> && HasText(m, "tenant_id") && HasText(m, "event") && HasText(m, "timestamp")
            && HasText(m, "task_id") && HasText(m, "run_id") && HasText(m, "task_type")
            && (exists id :: Has(m, "event_id", Str(id)) && IsUuid(id))
            && HasAgent(m)
  {
    NonEmptyIsText(m, "tenant_id");
    NonEmptyIsText(m, "event");
    NonEmptyIsText(m, "event_id");
    NonEmptyIsText(m, "timestamp");
    NonEmptyIsText(m, "task_id");
    NonEmptyIsText(m, "run_id");
    NonEmptyIsText(m, "task_type");
    EventIdIsThere(m);
    AgentIsThere(m);
  }

  lemma {:induction false} EventIdIsThere(m: Document)
    ensures NonEmptyText(Field(m, "event_id")) && IsUuid(Text(Field(m, "event_id")))
       <==> exists id :: Has(m, "event_id", Str(id)) && IsUuid(id)
  {
    if NonEmptyText(Field(m, "event_id")) {
      FieldIsMember(m, "event_id", Field(m, "event_id").value);
    }
    if id :| Has(m, "event_id", Str(id)) && IsUuid(id) {
      FieldIsMember(m, "event_id", Str(id));
    }
  }

  /** What may fill a column: a member's name, or the names of a member and its member. */
  datatype Origin<!T> = Origin(member: (string, T) -> bool, nested: (string, string, T) -> bool)

  ghost function TextsOf(m: Json): Origin<string> {
    Origin((name: string, column: string) => TextFrom(m, name, column),
           (outer: string, name: string, column: string) => NestedTextFrom(m, outer, name, column))
  }

  ghost function NumbersOf(m: Json): Origin<real> {
    Origin((name: string, column: real) => NumberFrom(m, name, column),
           (outer: string, name: string, column: real) => NestedNumberFrom(m, outer, name, column))
  }

  /** Which member fills which text column. */
  ghost predicate DimensionsFrom(from: Origin<string>, d: Dimensions) {
    && from.member("tenant_id", d.tenantId)
    && from.member("event", d.event)
    && from.member("task_id", d.taskId)
    && from.member("run_id", d.runId)
    && from.member("session_id", d.sessionId)
    && from.member("task_type", d.taskType)
    && from.member("tool_name", d.toolName)
    && from.member("model", d.model)
    && from.member("status", d.status)
    && from.member("verification", d.verification)
    && from.member("initiator", d.initiator)
    && from.member("retry_of_step_id", d.retryOfStepId)
    && from.nested("agent", "name", d.agentName)
    && from.nested("agent", "version", d.agentVersion)
  }

  /** Which member fills which number column. */
  ghost predicate MeasuresFrom(from: Origin<real>, n: Measures) {
    && from.member("tokens_in", n.tokensIn)
    && from.member("tokens_out", n.tokensOut)
    && from.member("latency_ms", n.latencyMs)
    && from.member("cost_usd", n.costUsd)
    && from.member("response_latency_ms", n.responseLatencyMs)
    && from.nested("rating", "value", n.ratingValue)
    && from.nested("edit_magnitude", "value", n.editMagnitudeValue)
  }

  /** The row's own text columns, by name, and its number columns. */
  function DimensionsOf(row: EventRow): Dimensions {
    Dimensions(tenantId := row.tenantId, event := row.event, taskId := row.taskId, runId := row.runId,
               sessionId := row.sessionId, taskType := row.taskType, agentName := row.agentName,
               agentVersion := row.agentVersion, toolName := row.toolName, model := row.model, status := row.status,
               verification := row.verification, initiator := row.initiator, retryOfStepId := row.retryOfStepId)
  }

  function MeasuresOf(row: EventRow): Measures {
    Measures(tokensIn := row.tokensIn, tokensOut := row.tokensOut, latencyMs := row.latencyMs, costUsd := row.costUsd,
             ratingValue := row.ratingValue, editMagnitudeValue := row.editMagnitudeValue,
             responseLatencyMs := row.responseLatencyMs)
  }

  /** Equal up to the case of letters that are hexadecimal digits. */
  ghost predicate SameUuid(a: string, b: string) {
    |a| == |b| && forall i | 0 <= i < |a| :: a[i] == b[i] || ('A' <= a[i] <= 'F' && b[i] as int == a[i] as int + 32)
  }

  /** The window given, rounded and clamped, or a year. */
  ghost predicate WindowFrom(m: Json, days: int) {
    && (days == 365 || exists x :: Has(m, "retention_days", Num(Finite(x))))
    && (forall x :: Has(m, "retention_days", Num(Finite(x))) ==> Clamps(x, days))
  }

  predicate Clamps(x: real, days: int) {
    if x < 1.0 then days == 1
    else if 3650.0 < x then days == 3650
    else x - 0.5 < days as real <= x + 0.5
  }

  predicate AllHex(s: string) {
    forall i | 0 <= i < |s| :: s[i] in "0123456789abcdefABCDEF"
  }

  /** Five groups of hexadecimal digits between dashes. */
  predicate FiveGroups(s: string, a: string, b: string, c: string, d: string, e: string) {
    && |a| == 8 && |b| == 4 && |c| == 4 && |d| == 4 && |e| == 12
    && AllHex(a) && AllHex(b) && AllHex(c) && AllHex(d) && AllHex(e)
    && s == a + "-" + b + "-" + c + "-" + d + "-" + e
  }

  lemma {:induction false} HexExactly(c: char)
    ensures IsHex(c) <==> c in "0123456789abcdefABCDEF"
  {
    var digits := "0123456789abcdefABCDEF";
    assert digits[0] == '0' && digits[1] == '1' && digits[2] == '2' && digits[3] == '3' && digits[4] == '4';
    assert digits[5] == '5' && digits[6] == '6' && digits[7] == '7' && digits[8] == '8' && digits[9] == '9';
    assert digits[10] == 'a' && digits[11] == 'b' && digits[12] == 'c' && digits[13] == 'd' && digits[14] == 'e';
    assert digits[15] == 'f' && digits[16] == 'A' && digits[17] == 'B' && digits[18] == 'C' && digits[19] == 'D';
    assert digits[20] == 'E' && digits[21] == 'F';
  }

  lemma {:induction false} HexPart(s: string, from: nat, to: nat)
    requires from <= to <= |s|
    ensures AllHex(s[from..to]) <==> forall i | from <= i < to :: IsHex(s[i])
  {
    var part := s[from..to];
    forall i | from <= i < to
      ensures part[i - from] in "0123456789abcdefABCDEF" <==> IsHex(s[i])
    {
      HexExactly(s[i]);
    }
    if AllHex(part) {
      forall i | from <= i < to ensures IsHex(s[i]) {
        assert part[i - from] == s[i];
      }
    }
  }

  lemma {:induction false} UuidParts(s: string)
    requires IsUuid(s)
    ensures FiveGroups(s, s[0..8], s[9..13], s[14..18], s[19..23], s[24..36])
  {
    HexPart(s, 0, 8);
    HexPart(s, 9, 13);
    HexPart(s, 14, 18);
    HexPart(s, 19, 23);
    HexPart(s, 24, 36);
    assert s == s[0..8] + [s[8]] + s[9..13] + [s[13]] + s[14..18] + [s[18]] + s[19..23] + [s[23]] + s[24..36];
  }

  lemma {:induction false} PartsUuid(s: string, a: string, b: string, c: string, d: string, e: string)
    requires FiveGroups(s, a, b, c, d, e)
    ensures IsUuid(s)
  {
    assert s[0..8] == a && s[9..13] == b && s[14..18] == c && s[19..23] == d && s[24..36] == e;
    HexPart(s, 0, 8);
    HexPart(s, 9, 13);
    HexPart(s, 14, 18);
    HexPart(s, 19, 23);
    HexPart(s, 24, 36);
  }

  /** The shape of an event id: groups of 8, 4, 4, 4 and 12 hexadecimal digits of either case. */
  lemma {:induction false} UuidIsFiveGroups(s: string)
    ensures IsUuid(s) <==> exists a, b, c, d, e :: FiveGroups(s, a, b, c, d, e)
  {
    if IsUuid(s) {
      UuidParts(s);
    }
    if a, b, c, d, e :| FiveGroups(s, a, b, c, d, e) {
      PartsUuid(s, a, b, c, d, e);
    }
  }

  /** The event id, in lower case. */
  ghost predicate IdFrom(m: Json, column: string) {
    && (exists id :: Has(m, "event_id", Str(id)) && SameUuid(id, column))
    && forall i | 0 <= i < |column| :: !('A' <= column[i] <= 'F')
  }

  /** The instant of the timestamp's text. */
  ghost predicate InstantFrom(m: Json, instant: string -> int, column: int) {
    exists text :: Has(m, "timestamp", Str(text)) && column == instant(text)
  }

  lemma {:induction false} DimensionsAreFrom(r: Reader, from: Origin<string>)
    requires forall name :: from.member(name, r.field(name).text)
    requires forall outer, name :: from.nested(outer, name, r.nested(outer, name).text)
    ensures DimensionsFrom(from, DimensionsIn(r))
  {
  }

  lemma {:induction false} MeasuresAreFrom(r: Reader, from: Origin<real>)
    requires forall name :: from.member(name, r.field(name).amount)
    requires forall outer, name :: from.nested(outer, name, r.nested(outer, name).amount)
    ensures MeasuresFrom(from, MeasuresIn(r))
  {
  }

  lemma {:induction false} RowHolds(d: Dimensions, n: Measures, eventId: string, timestamp: int, days: int,
                                    payload: Json)
    ensures var row := RowWith(d, n, eventId, timestamp, days, payload);
            && DimensionsOf(row) == d && MeasuresOf(row) == n
            && row.eventId == eventId && row.timestamp == timestamp && row.retentionDays == days
            && row.payload == payload
  {
  }

  lemma {:induction false} ReaderReadsMembers(m: Document)
    ensures forall name :: TextsOf(m).member(name, ReaderOf(m).field(name).text)
    ensures forall name :: NumbersOf(m).member(name, ReaderOf(m).field(name).amount)
    ensures forall outer, name :: TextsOf(m).nested(outer, name, ReaderOf(m).nested(outer, name).text)
    ensures forall outer, name :: NumbersOf(m).nested(outer, name, ReaderOf(m).nested(outer, name).amount)
  {
    forall name
      ensures TextsOf(m).member(name, ReaderOf(m).field(name).text)
      ensures NumbersOf(m).member(name, ReaderOf(m).field(name).amount)
    {
      TextIsFrom(m, name);
      NumberIsFrom(m, name);
    }
    forall outer, name
      ensures TextsOf(m).nested(outer, name, ReaderOf(m).nested(outer, name).text)
      ensures NumbersOf(m).nested(outer, name, ReaderOf(m).nested(outer, name).amount)
    {
      NestedIsFrom(m, outer, name);
    }
  }

  lemma {:induction false} EventIdIsFrom(m: Document)
    requires NonEmptyText(Field(m, "event_id"))
    ensures IdFrom(m, UuidValue(Text(Field(m, "event_id"))))
  {
    var id := Text(Field(m, "event_id"));
    FieldIsMember(m, "event_id", Str(id));
    assert SameUuid(id, UuidValue(id));
  }

  lemma {:induction false} TimestampIsFrom(m: Document, instant: string -> int)
    requires NonEmptyText(Field(m, "timestamp"))
    ensures InstantFrom(m, instant, instant(Text(Field(m, "timestamp"))))
  {
    FieldIsMember(m, "timestamp", Str(Text(Field(m, "timestamp"))));
  }

  lemma {:induction false} WindowIsFrom(m: Document)
    ensures WindowFrom(m, RetentionDays(Field(m, "retention_days")))
  {
    forall x
      ensures Has(m, "retention_days", Num(Finite(x))) <==> Field(m, "retention_days") == Some(Num(Finite(x)))
    {
      FieldIsMember(m, "retention_days", Num(Finite(x)));
    }
  }

  lemma {:induction false} MappableHasIdentity(m: Json)
    requires Mappable(m)
    ensures NonEmptyText(Field(m, "event_id")) && NonEmptyText(Field(m, "timestamp"))
  {
  }

  lemma {:induction false} ReaderReadsIdentity(r: Reader, d: Dimensions, n: Measures, instant: string -> int,
                                               payload: Json)
    requires d == DimensionsIn(r) && n == MeasuresIn(r)
    ensures Columns(r, instant, payload)
         == RowWith(d, n, UuidValue(r.field("event_id").text), instant(r.field("timestamp").text),
                    r.field("retention_days").days, payload)
  {
  }

  /** Every column of a row comes from its own member of the message, and the payload from all of it. */
  ghost predicate RowFrom(m: Json, instant: string -> int, row: EventRow) {
    && DimensionsFrom(TextsOf(m), DimensionsOf(row)) && MeasuresFrom(NumbersOf(m), MeasuresOf(row))
    && IdFrom(m, row.eventId) && InstantFrom(m, instant, row.timestamp)
    && WindowFrom(m, row.retentionDays) && row.payload == Serialised(m)
  }

  lemma {:induction false} RowFromReader(m: Json, r: Reader, instant: string -> int, row: EventRow)
    requires row == Columns(r, instant, Serialised(m))
    requires forall name :: TextsOf(m).member(name, r.field(name).text)
    requires forall name :: NumbersOf(m).member(name, r.field(name).amount)
    requires forall outer, name :: TextsOf(m).nested(outer, name, r.nested(outer, name).text)
    requires forall outer, name :: NumbersOf(m).nested(outer, name, r.nested(outer, name).amount)
    requires IdFrom(m, UuidValue(r.field("event_id").text))
    requires InstantFrom(m, instant, instant(r.field("timestamp").text))
    requires WindowFrom(m, r.field("retention_days").days)
    ensures RowFrom(m, instant, row)
  {
    DimensionsAreFrom(r, TextsOf(m));
    MeasuresAreFrom(r, NumbersOf(m));
    ReaderReadsIdentity(r, DimensionsIn(r), MeasuresIn(r), instant, Serialised(m));
    RowHolds(DimensionsIn(r), MeasuresIn(r), row.eventId, row.timestamp, row.retentionDays, row.payload);
  }

  lemma {:induction false} MappedRow(m: Json, instant: string -> int, row: EventRow)
    requires ToRow(m, instant) == Some(row)
    ensures row == Columns(ReaderOf(m), instant, Serialised(m))
  {
  }

  lemma {:induction false} IdentityIsRead(m: Document, instant: string -> int)
    requires NonEmptyText(Field(m, "event_id")) && NonEmptyText(Field(m, "timestamp"))
    ensures IdFrom(m, UuidValue(ReaderOf(m).field("event_id").text))
    ensures InstantFrom(m, instant, instant(ReaderOf(m).field("timestamp").text))
    ensures WindowFrom(m, ReaderOf(m).field("retention_days").days)
  {
    EventIdIsFrom(m);
    TimestampIsFrom(m, instant);
    WindowIsFrom(m);
  }

  lemma {:induction false} ColumnsAreMembers(m: Document, instant: string -> int, row: EventRow)
    requires ToRow(m, instant) == Some(row)
    ensures RowFrom(m, instant, row)
  {
    MappedRow(m, instant, row);
    MappableHasIdentity(m);
    IdentityIsRead(m, instant);
    ReaderReadsMembers(m);
    RowFromReader(m, ReaderOf(m), instant, row);
  }
}
