/**
 * Per-session rate limiting (new-repo-handoff/quarry/event-validator.ts), with the limit of
 * new-repo-handoff/quarry/event-schemas.ts. Times are milliseconds of one clock.
 */
module RateLimiter {
  const MAX_EVENTS_PER_SECOND := 100

  datatype Entry = Entry(count: nat, timestamp: int, windowStart: int)

  type Store = map<string, Entry>

  /** userId, or 'anonymous' when missing or empty, and likewise for the session. */
  function KeyOf(userId: string, sessionId: string): string {
    (if userId == "" then "anonymous" else userId) + ":" + (if sessionId == "" then "unknown" else sessionId)
  }

  predicate NoColon(s: string) {
    ':' !in s
  }

  lemma {:induction false} SplitAtColon(a: string, b: string, c: string, d: string)
    requires NoColon(a) && NoColon(c)
    ensures a + ":" + b == c + ":" + d <==> a == c && b == d
  {
    var x, y := a + ":" + b, c + ":" + d;
    assert x[|a|] == ':' && y[|c|] == ':';
    assert |a| < |c| ==> y[|a|] == c[|a|];
    assert |c| < |a| ==> x[|c|] == a[|c|];
    if x == y {
      assert x[..|a|] == a && y[..|c|] == c && x[|a| + 1..] == b && y[|c| + 1..] == d;
    }
  }

  /** Users and sessions count apart, a missing one as a user or session of its own, where user ids have no colon. */
  lemma {:induction false} SessionsCountApart(user: string, session: string, user': string, session': string)
    requires NoColon(user) && NoColon(user')
    ensures KeyOf(user, session) == KeyOf(user', session')
       <==> && (user == user' || {user, user'} == {"", "anonymous"})
            && (session == session' || {session, session'} == {"", "unknown"})
  {
    var u, u' := if user == "" then "anonymous" else user, if user' == "" then "anonymous" else user';
    var s, s' := if session == "" then "unknown" else session, if session' == "" then "unknown" else session';
    SplitAtColon(u, s, u', s');
    assert user in {user, user'} && user' in {user, user'};
    assert session in {session, session'} && session' in {session, session'};
  }

  /** With a colon in a user id two sessions may share one count. */
  lemma {:induction false} ColonsCollide()
    ensures KeyOf("a:b", "c") == KeyOf("a", "b:c")
  {
  }

  function EntryFor(store: Store, key: string, now: int): Entry {
    if key in store then store[key] else Entry(0, now, now)
  }

  predicate Limited(e: Entry, now: int) {
    now - e.timestamp < 1000 && e.count >= MAX_EVENTS_PER_SECOND
  }

  predicate MinuteBegins(e: Entry, now: int) {
    now - e.windowStart >= 60000
  }

  /** The entry after an accepted event: a new second clears the count, and so does a new minute. */
  function Counted(e: Entry, now: int): Entry {
    var second := if now - e.timestamp < 1000 then e else e.(count := 0, timestamp := now);
    var minute := if MinuteBegins(second, now) then second.(count := 0, windowStart := now) else second;
    minute.(count := minute.count + 1)
  }

  function Checked(store: Store, key: string, now: int): Store {
    var e := EntryFor(store, key, now);
    if Limited(e, now) then store else store[key := Counted(e, now)]
  }

  predicate Expired(e: Entry, now: int) {
    now - e.timestamp > 60000
  }

  function Cleaned(store: Store, now: int): Store {
    map key | key in store && !Expired(store[key], now) :: store[key]
  }

  class EventValidator {
    var store: Store

    constructor ()
      ensures store == map[]
    {
      store := map[];
    }

    method CheckRateLimit(userId: string, sessionId: string, now: int) returns (isValid: bool)
      modifies this
      ensures var key := KeyOf(userId, sessionId);
              && isValid == !Limited(EntryFor(old(store), key, now), now)
              && store == Checked(old(store), key, now)
    {
      var key := KeyOf(userId, sessionId);
      var entry := if key in store then store[key] else Entry(0, now, now);
      if now - entry.timestamp < 1000 {
        if entry.count >= MAX_EVENTS_PER_SECOND {
          return false;
        }
      } else {
        entry := entry.(count := 0, timestamp := now);
      }
      if now - entry.windowStart >= 60000 {
        entry := entry.(windowStart := now, count := 0);
      }
      entry := entry.(count := entry.count + 1);
      store := store[key := entry];
      isValid := true;
    }

    method CleanupRateLimitStore(now: int)
      modifies this
      ensures store == Cleaned(old(store), now)
    {
      var expiredKeys: set<string> := {};
      var unseen := store.Keys;
      while unseen != {}
        invariant unseen <= store.Keys && store == old(store)
        invariant expiredKeys == set key | key in store && key !in unseen && Expired(store[key], now)
        decreases |unseen|
      {
        var key :| key in unseen;
        if now - store[key].timestamp > 60000 {
          expiredKeys := expiredKeys + {key};
        }
        unseen := unseen - {key};
      }
      store := store - expiredKeys;
    }
  }

  /** A check reads and writes the entry of its own key only; a cleanup drops what is over a minute old. */
  lemma {:induction false} OthersAreUntouched(store: Store, key: string, other: string, now: int)
    requires other != key
    ensures (other in Checked(store, key, now) <==> other in store)
    ensures other in store ==> Checked(store, key, now)[other] == store[other]
    ensures other in Cleaned(store, now) <==> other in store && now - store[other].timestamp <= 60000
    ensures other in Cleaned(store, now) ==> Cleaned(store, now)[other] == store[other]
  {
  }

  /* ---------------- runs ---------------- */

  datatype Step = Check(key: string, now: int) | Cleanup(now: int)

  /** `minutes` are the times at which an accepted event of a key began a minute. */
  datatype World = World(store: Store, accepted: seq<Step>, minutes: set<(string, int)>)

  function Next(w: World, step: Step): World {
    match step
    case Check(key, now) =>
      var e := EntryFor(w.store, key, now);
      if Limited(e, now) then w
      else World(Checked(w.store, key, now), w.accepted + [step],
                 w.minutes + Begun(key, e, now))
    case Cleanup(now) => w.(store := Cleaned(w.store, now))
  }

  const EMPTY := World(map[], [], {})

  function RunFrom(w: World, steps: seq<Step>): World {
    if steps == [] then w else Next(RunFrom(w, steps[..|steps| - 1]), steps[|steps| - 1])
  }

  function Run(steps: seq<Step>): World {
    RunFrom(EMPTY, steps)
  }

  /** The clock never runs backwards. */
  ghost predicate Monotone(steps: seq<Step>) {
    forall i, j | 0 <= i < j < |steps| :: steps[i].now <= steps[j].now
  }

  /** Accepted events of a key from some time on. */
  function Since(accepted: seq<Step>, key: string, from: int): nat {
    if accepted == [] then 0
    else
      var last := accepted[|accepted| - 1];
      Since(accepted[..|accepted| - 1], key, from) + if last.Check? && last.key == key && from <= last.now then 1 else 0
  }

  /** Accepted events of a key in the span [from, from + 1000], both ends included. */
  function InSpan(accepted: seq<Step>, key: string, from: int): nat {
    if accepted == [] then 0
    else
      var last := accepted[|accepted| - 1];
      InSpan(accepted[..|accepted| - 1], key, from)
      + if last.Check? && last.key == key && from <= last.now <= from + 1000 then 1 else 0
  }

  lemma {:induction false} SinceFalls(accepted: seq<Step>, key: string, a: int, b: int)
    requires a <= b
    ensures Since(accepted, key, b) <= Since(accepted, key, a)
  {
    if accepted != [] {
      SinceFalls(accepted[..|accepted| - 1], key, a, b);
    }
  }

  lemma {:induction false} SpanWithinSince(accepted: seq<Step>, key: string, from: int)
    ensures InSpan(accepted, key, from) <= Since(accepted, key, from)
  {
    if accepted != [] {
      SpanWithinSince(accepted[..|accepted| - 1], key, from);
    }
  }

  lemma {:induction false} SinceOneMore(accepted: seq<Step>, step: Step, key: string, from: int)
    ensures Since(accepted + [step], key, from)
         == Since(accepted, key, from) + if step.Check? && step.key == key && from <= step.now then 1 else 0
    ensures InSpan(accepted + [step], key, from)
         == InSpan(accepted, key, from)
            + if step.Check? && step.key == key && from <= step.now <= from + 1000 then 1 else 0
  {
    assert (accepted + [step])[..|accepted|] == accepted;
  }

  /** Accepted in the running second (from the entry's timestamp), and in the 1000 ms before it. */
  function Current(accepted: seq<Step>, key: string, e: Entry): nat {
    Since(accepted, key, e.timestamp)
  }

  function WithPrevious(accepted: seq<Step>, key: string, e: Entry): nat {
    Since(accepted, key, e.timestamp - 1000)
  }

  function Earlier(a: int, b: int): int {
    if a < b then a else b
  }

  /**
   * What an entry knows. The count is that of the running second, unless a minute began within it; the
   * previous 1000 ms hold at most 100, unless a minute began within the second they belong to, and then
   * none begins now.
   */
  ghost predicate Truthful(accepted: seq<Step>, minutes: set<(string, int)>, key: string, e: Entry, now: int) {
    && e.timestamp <= now && e.windowStart <= now
    && e.count <= MAX_EVENTS_PER_SECOND
    && Since(accepted, key, e.timestamp + 1000) == 0
    && CountIsCurrent(accepted, minutes, key, e)
    && PreviousIsBounded(accepted, minutes, key, e)
  }

  ghost predicate CountIsCurrent(accepted: seq<Step>, minutes: set<(string, int)>, key: string, e: Entry) {
    var current := Current(accepted, key, e);
    || current == e.count
    || (e.count <= current <= e.count + 99 && e.timestamp <= e.windowStart && (key, e.windowStart) in minutes)
  }

  ghost predicate PreviousIsBounded(accepted: seq<Step>, minutes: set<(string, int)>, key: string, e: Entry) {
    var current := Current(accepted, key, e);
    var previous := WithPrevious(accepted, key, e) - current;
    || previous <= 100
    || (&& previous <= 199 && current == e.count && e.timestamp - 2000 < e.windowStart
        && (key, e.windowStart) in minutes
        && Since(accepted, key, Earlier(e.windowStart + 1000, e.timestamp)) == current)
  }

  /** Without an entry, everything accepted is long past. */
  ghost predicate Explains(w: World, key: string, now: int) {
    if key in w.store then Truthful(w.accepted, w.minutes, key, w.store[key], now)
    else Since(w.accepted, key, now - 59000) == 0
  }

  lemma {:induction false} TimePasses(w: World, key: string, now: int, later: int)
    requires Explains(w, key, now) && now <= later
    ensures Explains(w, key, later)
  {
    SinceFalls(w.accepted, key, now - 59000, later - 59000);
  }

  lemma {:induction false} CleanupExplains(w: World, key: string, now: int)
    requires Explains(w, key, now)
    ensures Explains(Next(w, Cleanup(now)), key, now)
  {
    if key in w.store && Expired(w.store[key], now) {
      SinceFalls(w.accepted, key, w.store[key].timestamp + 1000, now - 59000);
    }
  }

  /** The first event of a key, or the first after its entry was cleaned up. */
  lemma {:induction false} FreshExplains(accepted: seq<Step>, minutes: set<(string, int)>, key: string, now: int)
    requires Since(accepted, key, now - 59000) == 0
    ensures Truthful(accepted + [Check(key, now)], minutes, key, Counted(Entry(0, now, now), now), now)
  {
    SinceFalls(accepted, key, now - 59000, now - 1000);
    SinceFalls(accepted, key, now - 59000, now);
    SinceFalls(accepted, key, now - 59000, now + 1000);
    SinceOneMore(accepted, Check(key, now), key, now - 1000);
    SinceOneMore(accepted, Check(key, now), key, now);
    SinceOneMore(accepted, Check(key, now), key, now + 1000);
  }

  function Begun(key: string, e: Entry, now: int): set<(string, int)> {
    if MinuteBegins(e, now) then {(key, now)} else {}
  }

  lemma {:induction false} SameSecondExplains(accepted: seq<Step>, minutes: set<(string, int)>, key: string, e: Entry,
                                               before: int, now: int)
    requires Truthful(accepted, minutes, key, e, before) && before <= now
    requires now - e.timestamp < 1000 && e.count < MAX_EVENTS_PER_SECOND
    ensures Truthful(accepted + [Check(key, now)], minutes + Begun(key, e, now), key, Counted(e, now), now)
  {
    SinceOneMore(accepted, Check(key, now), key, Earlier(e.windowStart + 1000, e.timestamp));
    SinceOneMore(accepted, Check(key, now), key, e.timestamp - 1000);
    SinceOneMore(accepted, Check(key, now), key, e.timestamp);
    SinceOneMore(accepted, Check(key, now), key, e.timestamp + 1000);
  }

  lemma {:induction false} NewSecondExplains(accepted: seq<Step>, minutes: set<(string, int)>, key: string, e: Entry,
                                               before: int, now: int)
    requires Truthful(accepted, minutes, key, e, before) && before <= now
    requires now - e.timestamp >= 1000
    ensures Truthful(accepted + [Check(key, now)], minutes + Begun(key, e, now), key, Counted(e, now), now)
  {
    NewSecondIsAlone(accepted, key, e.timestamp, now);
    NewSecondAfter(accepted, minutes, key, e, before, now);
  }

  /** The event that opens a second is the only one from then on. */
  lemma {:induction false} NewSecondIsAlone(accepted: seq<Step>, key: string, timestamp: int, now: int)
    requires Since(accepted, key, timestamp + 1000) == 0 && now - timestamp >= 1000
    ensures Since(accepted + [Check(key, now)], key, now) == 1
    ensures Since(accepted + [Check(key, now)], key, now + 1000) == 0
  {
    SinceFalls(accepted, key, timestamp + 1000, now);
    SinceFalls(accepted, key, timestamp + 1000, now + 1000);
    SinceOneMore(accepted, Check(key, now), key, now);
    SinceOneMore(accepted, Check(key, now), key, now + 1000);
  }

  lemma {:induction false} NewSecondAfter(accepted: seq<Step>, minutes: set<(string, int)>, key: string, e: Entry,
                                            before: int, now: int)
    requires Truthful(accepted, minutes, key, e, before) && before <= now && now - e.timestamp >= 1000
    requires Since(accepted + [Check(key, now)], key, now) == 1
    ensures PreviousIsBounded(accepted + [Check(key, now)], minutes + Begun(key, e, now), key, Counted(e, now))
  {
    SinceFalls(accepted, key, e.timestamp, now - 1000);
    if e.timestamp + 2000 <= now {
      SinceFalls(accepted, key, e.timestamp + 1000, now - 1000);
    }
    if e.timestamp <= e.windowStart {
      SinceFalls(accepted, key, e.timestamp + 1000, Earlier(e.windowStart + 1000, now));
      SinceOneMore(accepted, Check(key, now), key, Earlier(e.windowStart + 1000, now));
    }
    SinceOneMore(accepted, Check(key, now), key, now - 1000);
  }

  lemma {:induction false} OthersExplain(accepted: seq<Step>, step: Step, key: string, from: int)
    requires step.Check? && step.key != key
    ensures Since(accepted + [step], key, from) == Since(accepted, key, from)
  {
    SinceOneMore(accepted, step, key, from);
  }

  lemma {:induction false} CheckExplains(w: World, key: string, step: Step, before: int)
    requires step.Check? && Explains(w, key, before) && before <= step.now
    ensures Explains(Next(w, step), key, step.now)
  {
    TimePasses(w, key, before, step.now);
    var e := EntryFor(w.store, step.key, step.now);
    if !Limited(e, step.now) {
      if step.key != key {
        if key in w.store {
          OthersExplain(w.accepted, step, key, w.store[key].timestamp - 1000);
          OthersExplain(w.accepted, step, key, w.store[key].timestamp);
          OthersExplain(w.accepted, step, key, w.store[key].timestamp + 1000);
        } else {
          OthersExplain(w.accepted, step, key, step.now - 59000);
        }
      } else if key !in w.store {
        FreshExplains(w.accepted, Next(w, step).minutes, key, step.now);
      } else if step.now - e.timestamp < 1000 {
        SameSecondExplains(w.accepted, w.minutes, key, e, before, step.now);
      } else {
        NewSecondExplains(w.accepted, w.minutes, key, e, before, step.now);
      }
    }
  }

  /** The latest time of a run; any early time will do when there is none. */
  function LastTime(steps: seq<Step>, early: int): int {
    if steps == [] then early else steps[|steps| - 1].now
  }

  lemma {:induction false} RunExplains(steps: seq<Step>, key: string, early: int)
    requires Monotone(steps)
    requires forall i | 0 <= i < |steps| :: early <= steps[i].now
    ensures Explains(Run(steps), key, LastTime(steps, early))
  {
    if steps != [] {
      var front, last := steps[..|steps| - 1], steps[|steps| - 1];
      RunExplains(front, key, early);
      var before := LastTime(front, early);
      TimePasses(Run(front), key, before, last.now);
      match last
      case Check(_, _) => CheckExplains(Run(front), key, last, before);
      case Cleanup(now) => CleanupExplains(Run(front), key, now);
    }
  }

  /** Right after an accepted event, the last 1000 ms hold at most 299 of its key. */
  lemma {:induction false} LastSecondIsBounded(accepted: seq<Step>, minutes: set<(string, int)>, key: string, e: Entry,
                                                now: int)
    requires Truthful(accepted, minutes, key, e, now)
    ensures Since(accepted, key, now - 1000) <= 299
  {
    SinceFalls(accepted, key, e.timestamp - 1000, now - 1000);
  }

  /**
   * In any span of 1000 ms of a monotone clock, both ends included, one key gets at most 299 accepted
   * events, through every interleaving of second resets, minute resets and cleanups.
   */
  lemma {:induction false} AtMost299InAnySpan(steps: seq<Step>, key: string, from: int)
    requires Monotone(steps)
    ensures InSpan(Run(steps).accepted, key, from) <= 299
  {
    if steps != [] {
      var front, last := steps[..|steps| - 1], steps[|steps| - 1];
      AtMost299InAnySpan(front, key, from);
      if last.Check? && !Limited(EntryFor(Run(front).store, last.key, last.now), last.now) {
        SinceOneMore(Run(front).accepted, last, key, from);
        if last.key == key && from <= last.now <= from + 1000 {
          RunExplains(steps, key, steps[0].now);
          var accepted := Run(steps).accepted;
          LastSecondIsBounded(accepted, Run(steps).minutes, key, Run(steps).store[key], last.now);
          SpanWithinSince(accepted, key, from);
          SinceFalls(accepted, key, last.now - 1000, from);
        }
      }
    }
  }

  /** No event of the key begins a minute in the span from from - 999 to from + 1000. */
  ghost predicate NoMinuteNear(minutes: set<(string, int)>, key: string, from: int) {
    forall now: int | (key, now) in minutes :: now <= from - 1000 || from + 1000 < now
  }

  lemma {:induction false} CalmSecondIsBounded(accepted: seq<Step>, minutes: set<(string, int)>, key: string, e: Entry,
                                                now: int, from: int)
    requires Truthful(accepted, minutes, key, e, now) && NoMinuteNear(minutes, key, from)
    requires from <= now <= from + 1000 && now < e.timestamp + 1000
    ensures Since(accepted, key, from) <= 200
  {
    if WithPrevious(accepted, key, e) - Current(accepted, key, e) <= 100 {
      SinceFalls(accepted, key, e.timestamp - 1000, from);
    } else {
      SinceFalls(accepted, key, Earlier(e.windowStart + 1000, e.timestamp), from);
    }
  }

  lemma {:induction false} NoMinuteBefore(w: World, step: Step, key: string, from: int)
    requires NoMinuteNear(Next(w, step).minutes, key, from)
    ensures NoMinuteNear(w.minutes, key, from)
  {
    forall now: int | (key, now) in w.minutes
      ensures now <= from - 1000 || from + 1000 < now
    {
      assert (key, now) in Next(w, step).minutes;
    }
  }

  /** The step's own event, if it was accepted in the span, closes no more than a calm second's worth. */
  lemma {:induction false} CalmStep(w: World, key: string, now: int, from: int)
    requires from <= now <= from + 1000 && NoMinuteNear(w.minutes, key, from)
    requires key in w.store && Truthful(w.accepted, w.minutes, key, w.store[key], now)
    requires now < w.store[key].timestamp + 1000
    ensures InSpan(w.accepted, key, from) <= 200
  {
    CalmSecondIsBounded(w.accepted, w.minutes, key, w.store[key], now, from);
    SpanWithinSince(w.accepted, key, from);
  }

  /**
   * Where no minute begins in a span of 1000 ms or in the second before it, one key gets at most 200
   * accepted events in the span: the two seconds that can touch it, of 100 each.
   */
  lemma {:induction false} AtMost200WithoutMinute(steps: seq<Step>, key: string, from: int)
    requires Monotone(steps) && NoMinuteNear(Run(steps).minutes, key, from)
    ensures InSpan(Run(steps).accepted, key, from) <= 200
  {
    if steps != [] {
      var front, last := steps[..|steps| - 1], steps[|steps| - 1];
      NoMinuteBefore(Run(front), last, key, from);
      AtMost200WithoutMinute(front, key, from);
      if last.Check? && !Limited(EntryFor(Run(front).store, last.key, last.now), last.now) {
        SinceOneMore(Run(front).accepted, last, key, from);
        if last.key == key && from <= last.now <= from + 1000 {
          RunExplains(steps, key, steps[0].now);
          CalmStep(Run(steps), key, last.now, from);
        }
      }
    }
  }

  /** A rejected event did find its key's last 1000 ms full: at least 100 were accepted in them. */
  lemma {:induction false} RejectionIsEarned(steps: seq<Step>, key: string, now: int)
    requires Monotone(steps + [Check(key, now)])
    requires Limited(EntryFor(Run(steps).store, key, now), now)
    ensures Since(Run(steps).accepted, key, now - 999) >= 100
  {
    var all := steps + [Check(key, now)];
    assert forall i | 0 <= i < |steps| :: steps[i] == all[i];
    assert Monotone(steps);
    RunExplains(steps, key, if steps == [] then now else steps[0].now);
    var e := Run(steps).store[key];
    SinceFalls(Run(steps).accepted, key, now - 999, e.timestamp);
  }

  /* ---------------- the bound is attained ---------------- */

  function Repeat(key: string, now: int, n: nat): (steps: seq<Step>)
    ensures |steps| == n && forall i | 0 <= i < n :: steps[i] == Check(key, now)
  {
    if n == 0 then [] else Repeat(key, now, n - 1) + [Check(key, now)]
  }

  lemma {:induction false} RunOne(w: World, step: Step)
    ensures RunFrom(w, [step]) == Next(w, step)
  {
    assert [step][..0] == [];
  }

  lemma {:induction false} RunOneMore(w: World, steps: seq<Step>, step: Step)
    ensures RunFrom(w, steps + [step]) == Next(RunFrom(w, steps), step)
  {
    assert (steps + [step])[..|steps|] == steps;
  }

  lemma {:induction false} RunJoins(w: World, a: seq<Step>, b: seq<Step>)
    ensures RunFrom(w, a + b) == RunFrom(RunFrom(w, a), b)
  {
    if b == [] {
      assert a + b == a;
    } else {
      RunJoins(w, a, b[..|b| - 1]);
      assert (a + b)[..|a + b| - 1] == a + b[..|b| - 1];
    }
  }

  /** One more event while the count has room. */
  lemma {:induction false} OneAccepted(w: World, key: string, now: int)
    requires key in w.store
    requires now - w.store[key].timestamp < 1000 && now - w.store[key].windowStart < 60000
    requires w.store[key].count < 100
    ensures var end := Next(w, Check(key, now));
            && key in end.store
            && end.store[key] == w.store[key].(count := w.store[key].count + 1) && end.minutes == w.minutes
            && end.accepted == w.accepted + [Check(key, now)]
  {
  }

  /** n more events at once are all accepted while the count has room. */
  lemma {:induction false} Burst(w: World, key: string, now: int, n: nat, from: int)
    requires key in w.store && from <= now <= from + 1000
    requires now - w.store[key].timestamp < 1000 && now - w.store[key].windowStart < 60000
    requires w.store[key].count + n <= 100
    ensures var end := RunFrom(w, Repeat(key, now, n));
            && key in end.store
            && end.store[key] == w.store[key].(count := w.store[key].count + n) && end.minutes == w.minutes
            && InSpan(end.accepted, key, from) == InSpan(w.accepted, key, from) + n
  {
    if 0 < n {
      Burst(w, key, now, n - 1, from);
      RunOneMore(w, Repeat(key, now, n - 1), Check(key, now));
      OneAccepted(RunFrom(w, Repeat(key, now, n - 1)), key, now);
      SinceOneMore(RunFrom(w, Repeat(key, now, n - 1)).accepted, Check(key, now), key, from);
    }
  }

  /** An event that opens a second or a minute, and n - 1 more at the same time. */
  function Wave(key: string, now: int, n: nat): (steps: seq<Step>)
    requires 1 <= n
    ensures |steps| == n && forall i | 0 <= i < n :: steps[i] == Check(key, now)
  {
    [Check(key, now)] + Repeat(key, now, n - 1)
  }

  lemma {:induction false} WaveIsAccepted(w: World, key: string, now: int, n: nat, from: int)
    requires key in w.store && 1 <= n <= 100 && from <= now <= from + 1000
    requires !Limited(w.store[key], now) && Counted(w.store[key], now).count == 1
    ensures var end := RunFrom(w, Wave(key, now, n));
            && key in end.store
            && end.store[key] == Counted(w.store[key], now).(count := n)
            && end.minutes == w.minutes + Begun(key, w.store[key], now)
            && InSpan(end.accepted, key, from) == InSpan(w.accepted, key, from) + n
  {
    var step := Check(key, now);
    RunOne(w, step);
    SinceOneMore(w.accepted, step, key, from);
    Burst(Next(w, step), key, now, n - 1, from);
    RunJoins(w, [step], Repeat(key, now, n - 1));
  }

  /** A lone event, and three waves of up to the limit: a minute boundary falls inside the first second. */
  function WorstCase(key: string, limit: nat): seq<Step>
    requires 1 < limit
  {
    [Check(key, 0)] + Wave(key, 59500, limit - 1) + Wave(key, 60000, limit) + Wave(key, 60500, limit)
  }

  lemma {:induction false} FirstTwoWaves(key: string, limit: nat)
    requires limit == MAX_EVENTS_PER_SECOND
    ensures var end := Run([Check(key, 0)] + Wave(key, 59500, limit - 1) + Wave(key, 60000, limit));
            key in end.store && end.store[key] == Entry(limit, 59500, 60000) && InSpan(end.accepted, key, 59500) == 199
  {
    var first, second, third := [Check(key, 0)], Wave(key, 59500, limit - 1), Wave(key, 60000, limit);
    RunOne(EMPTY, Check(key, 0));
    SinceOneMore([], Check(key, 0), key, 59500);
    WaveIsAccepted(Run(first), key, 59500, limit - 1, 59500);
    RunJoins(EMPTY, first, second);
    WaveIsAccepted(Run(first + second), key, 60000, limit, 59500);
    RunJoins(EMPTY, first + second, third);
  }

  lemma {:induction false} WorstCaseIsMonotone(key: string, limit: nat)
    requires 1 < limit
    ensures Monotone(WorstCase(key, limit))
  {
  }

  /** The bound is attained: the minute boundary lets one second take 199, and the next takes 100. */
  lemma {:induction false} BoundIsAttained(key: string, limit: nat)
    requires limit == MAX_EVENTS_PER_SECOND
    ensures InSpan(Run(WorstCase(key, limit)).accepted, key, 59500) == 299 && Monotone(WorstCase(key, limit))
  {
    var three := [Check(key, 0)] + Wave(key, 59500, limit - 1) + Wave(key, 60000, limit);
    FirstTwoWaves(key, limit);
    WaveIsAccepted(Run(three), key, 60500, limit, 59500);
    RunJoins(EMPTY, three, Wave(key, 60500, limit));
    WorstCaseIsMonotone(key, limit);
  }

  /** Two full seconds in a row, and no minute begins. */
  function TwoSeconds(key: string, limit: nat): seq<Step>
    requires 1 < limit
  {
    [Check(key, 0)] + Repeat(key, 0, limit - 1) + Wave(key, 1000, limit)
  }

  lemma {:induction false} LoneEvent(key: string)
    ensures var end := Run([Check(key, 0)]);
            && key in end.store && end.store[key] == Entry(1, 0, 0) && end.minutes == {}
            && InSpan(end.accepted, key, 0) == 1
  {
    RunOne(EMPTY, Check(key, 0));
    SinceOneMore([], Check(key, 0), key, 0);
  }

  lemma {:induction false} FirstSecond(key: string, limit: nat)
    requires limit == MAX_EVENTS_PER_SECOND
    ensures var end := Run([Check(key, 0)] + Repeat(key, 0, limit - 1));
            && key in end.store && end.store[key] == Entry(limit, 0, 0) && end.minutes == {}
            && InSpan(end.accepted, key, 0) == limit
  {
    LoneEvent(key);
    Burst(Run([Check(key, 0)]), key, 0, limit - 1, 0);
    RunJoins(EMPTY, [Check(key, 0)], Repeat(key, 0, limit - 1));
  }

  lemma {:induction false} TwoSecondsAreMonotone(key: string, limit: nat)
    requires 1 < limit
    ensures Monotone(TwoSeconds(key, limit))
  {
  }

  /** That bound is attained too. */
  lemma {:induction false} CalmBoundIsAttained(key: string, limit: nat)
    requires limit == MAX_EVENTS_PER_SECOND
    ensures var end := Run(TwoSeconds(key, limit));
            InSpan(end.accepted, key, 0) == 200 && end.minutes == {} && Monotone(TwoSeconds(key, limit))
  {
    var first := [Check(key, 0)] + Repeat(key, 0, limit - 1);
    FirstSecond(key, limit);
    WaveIsAccepted(Run(first), key, 1000, limit, 0);
    RunJoins(EMPTY, first, Wave(key, 1000, limit));
    TwoSecondsAreMonotone(key, limit);
  }

  /* ---------------- exactly when a second keeps the limit ---------------- */

  /** A check of this key at this time opens a new second. */
  predicate OpensSecond(store: Store, key: string, t: int) {
    key in store ==> 1000 <= t - store[key].timestamp
  }

  /** The clock goes on from t and stays within the second t opened. */
  ghost predicate WithinSecond(more: seq<Step>, t: int) {
    Monotone(more) && forall i | 0 <= i < |more| :: t <= more[i].now < t + 1000
  }

  /** The second's entry while no minute begins in it: the count is that of the accepted events. */
  ghost predicate Exact(w: World, key: string, t: int, s: int) {
    && key in w.store && w.store[key].timestamp == t && w.store[key].windowStart == s
    && w.store[key].count == Since(w.accepted, key, t) <= MAX_EVENTS_PER_SECOND
  }

  lemma {:induction false} ExactStep(w: World, key: string, t: int, s: int, step: Step)
    requires Exact(w, key, t, s) && t + 1000 <= s + 60000 && t <= step.now < t + 1000
    ensures Exact(Next(w, step), key, t, s)
  {
    if step.Check? {
      SinceOneMore(w.accepted, step, key, t);
    }
  }

  lemma {:induction false} ExactRun(w: World, key: string, t: int, s: int, more: seq<Step>)
    requires Exact(w, key, t, s) && t + 1000 <= s + 60000
    requires forall i | 0 <= i < |more| :: t <= more[i].now < t + 1000
    ensures Exact(RunFrom(w, more), key, t, s)
  {
    if more != [] {
      ExactRun(w, key, t, s, more[..|more| - 1]);
      ExactStep(RunFrom(w, more[..|more| - 1]), key, t, s, more[|more| - 1]);
    }
  }

  /** Nothing was accepted from the time on at which a check opens a second. */
  lemma {:induction false} NothingSince(w: World, key: string, t: int, before: int)
    requires Explains(w, key, before) && before <= t && OpensSecond(w.store, key, t)
    ensures Since(w.accepted, key, t) == 0
  {
    if key in w.store {
      SinceFalls(w.accepted, key, w.store[key].timestamp + 1000, t);
    } else {
      SinceFalls(w.accepted, key, before - 59000, t);
    }
  }

  /** The event that opens a second is the first one in it, and its minute has begun less than 60 s ago. */
  lemma {:induction false} OpeningStep(w: World, key: string, t: int, before: int)
    requires Explains(w, key, before) && before <= t && OpensSecond(w.store, key, t)
    ensures var w' := Next(w, Check(key, t));
            key in w'.store && Exact(w', key, t, w'.store[key].windowStart) && w'.store[key].count == 1
            && w'.store[key].windowStart <= t < w'.store[key].windowStart + 60000
  {
    NothingSince(w, key, t, before);
    SinceOneMore(w.accepted, Check(key, t), key, t);
  }

  lemma {:induction false} OpeningIsExact(steps: seq<Step>, key: string, t: int)
    requires Monotone(steps + [Check(key, t)]) && OpensSecond(Run(steps).store, key, t)
    ensures var w := Next(Run(steps), Check(key, t));
            key in w.store && Exact(w, key, t, w.store[key].windowStart) && w.store[key].count == 1
            && w.store[key].windowStart <= t < w.store[key].windowStart + 60000
  {
    var all := steps + [Check(key, t)];
    assert forall i | 0 <= i < |steps| :: steps[i] == all[i] && steps[i].now <= all[|steps|].now;
    var early := if steps == [] then t else steps[0].now;
    RunExplains(steps, key, early);
    OpeningStep(Run(steps), key, t, LastTime(steps, early));
  }

  /** 98 more events fill the second up to one, and the minute that then begins lets in a hundred more. */
  function Overflowing(key: string, t: int, minute: int, limit: nat): (more: seq<Step>)
    requires 2 <= limit
  {
    Repeat(key, t, limit - 2) + Wave(key, minute, limit)
  }

  lemma {:induction false} OverflowingStaysWithin(key: string, t: int, minute: int, limit: nat)
    requires 2 <= limit && t <= minute < t + 1000
    ensures WithinSecond(Overflowing(key, t, minute, limit), t)
  {
  }

  lemma {:induction false} MinuteLetsIn(w: World, key: string, t: int, s: int, limit: nat)
    requires limit == MAX_EVENTS_PER_SECOND && key in w.store && w.store[key] == Entry(limit - 1, t, s)
    requires t < s + 60000 < t + 1000
    ensures InSpan(RunFrom(w, Wave(key, s + 60000, limit)).accepted, key, t) == InSpan(w.accepted, key, t) + limit
  {
    WaveIsAccepted(w, key, s + 60000, limit, t);
  }

  lemma {:induction false} OverflowingExceeds(w: World, key: string, t: int, s: int, limit: nat)
    requires limit == MAX_EVENTS_PER_SECOND
    requires Exact(w, key, t, s) && w.store[key].count == 1 && s <= t < s + 60000 < t + 1000
    ensures Since(RunFrom(w, Overflowing(key, t, s + 60000, limit)).accepted, key, t) > limit
  {
    var first := Repeat(key, t, limit - 2);
    Burst(w, key, t, limit - 2, t);
    MinuteLetsIn(RunFrom(w, first), key, t, s, limit);
    RunJoins(w, first, Wave(key, s + 60000, limit));
    SpanWithinSince(RunFrom(w, first + Wave(key, s + 60000, limit)).accepted, key, t);
  }

  /** Whatever follows within the second t opened, it takes no more than the limit. */
  ghost predicate KeepsLimit(w: World, key: string, t: int) {
    forall more | WithinSecond(more, t) :: Since(RunFrom(w, more).accepted, key, t) <= MAX_EVENTS_PER_SECOND
  }

  lemma {:induction false} KeepsWithinMinute(w: World, key: string, t: int, s: int)
    requires Exact(w, key, t, s) && t + 1000 <= s + 60000
    ensures KeepsLimit(w, key, t)
  {
    forall more | WithinSecond(more, t)
      ensures Since(RunFrom(w, more).accepted, key, t) <= MAX_EVENTS_PER_SECOND
    {
      ExactRun(w, key, t, s, more);
    }
  }

  lemma {:induction false} ExceedsAcrossMinutes(w: World, key: string, t: int, s: int)
    requires Exact(w, key, t, s) && w.store[key].count == 1 && s <= t < s + 60000 < t + 1000
    ensures !KeepsLimit(w, key, t)
  {
    OverflowingStaysWithin(key, t, s + 60000, MAX_EVENTS_PER_SECOND);
    OverflowingExceeds(w, key, t, s, MAX_EVENTS_PER_SECOND);
  }

  /**
   * The second a check opens takes at most 100 events of its key, whatever follows, exactly when it ends
   * no later than the minute its entry is in: the guard of the minute reset.
   */
  lemma {:induction false} SecondKeepsLimitExactly(steps: seq<Step>, key: string, t: int)
    requires Monotone(steps + [Check(key, t)]) && OpensSecond(Run(steps).store, key, t)
    ensures var w := Next(Run(steps), Check(key, t));
            && key in w.store
            && (KeepsLimit(w, key, t) <==> t + 1000 <= w.store[key].windowStart + 60000)
  {
    OpeningIsExact(steps, key, t);
    var w := Next(Run(steps), Check(key, t));
    var s := w.store[key].windowStart;
    if t + 1000 <= s + 60000 {
      KeepsWithinMinute(w, key, t, s);
    } else {
      ExceedsAcrossMinutes(w, key, t, s);
    }
  }
}
