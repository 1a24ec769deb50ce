/**
 The login rate limiter on `login_attempts`. A call first answers a blocked identifier from a
 read alone; otherwise one transaction purges expired rows, evicts the oldest row of a full table,
 counts the attempt and decides. Clock values are reals. `pick` is the row that
 `ORDER BY window_start ASC LIMIT 1` returns; SQL leaves ties open, so it may be any function of
 the keys and their window starts.
 */
module LoginLimiter {
  import opened Wrappers

  datatype Row = Row(count: int, start: real)

  type Table = map<string, Row>

  datatype Config = Config(window: real, maxAttempts: int, rowCap: int, pick: map<string, real> -> string)

  ghost predicate PicksOldest(c: Config) {
    forall m: map<string, real> | m != map[] :: c.pick(m) in m && forall k | k in m :: m[c.pick(m)] <= m[k]
  }

  predicate Live(c: Config, r: Row, now: real) {
    r.start > now - c.window
  }

  function RetryAfter(c: Config, r: Row, now: real): real {
    c.window - (now - r.start)
  }

  // ----- The two paths

  /** The read-only answer, which needs no write: a live row that already used up its attempts. */
  function FastAnswer(c: Config, t: Table, key: string, now: real): Option<real> {
    if key in t && Live(c, t[key], now) && t[key].count >= c.maxAttempts
    then Some(RetryAfter(c, t[key], now)) else None
  }

  function Purge(c: Config, t: Table, now: real): Table {
    map k | k in t && Live(c, t[k], now) :: t[k]
  }

  function Starts(t: Table): map<string, real> {
    map k | k in t :: t[k].start
  }

  function Evict(c: Config, t: Table, key: string): Table {
    if key !in t && |t| >= c.rowCap && t != map[] then t - {c.pick(Starts(t))} else t
  }

  function Count(t: Table, key: string, now: real): Table {
    t[key := if key in t then t[key].(count := t[key].count + 1) else Row(1, now)]
  }

  /** The table after the write transaction. */
  function Write(c: Config, t: Table, key: string, now: real): (u: Table)
    ensures key in u
  {
    Count(Evict(c, Purge(c, t, now), key), key, now)
  }

  function WriteAnswer(c: Config, t: Table, key: string, now: real): Option<real> {
    var r := Write(c, t, key, now)[key];
    if r.count > c.maxAttempts then Some(RetryAfter(c, r, now)) else None
  }

  /** `reserve_login_attempt`: the new table and the answer, `None` when the attempt is admitted. */
  function Reserve(c: Config, t: Table, key: string, now: real): (Table, Option<real>) {
    if c.maxAttempts <= 0 then (t, None)
    else if FastAnswer(c, t, key, now).Some? then (t, FastAnswer(c, t, key, now))
    else (Write(c, t, key, now), WriteAnswer(c, t, key, now))
  }

  /** The limiter without the read-only path. */
  function ReserveByWriting(c: Config, t: Table, key: string, now: real): (Table, Option<real>) {
    if c.maxAttempts <= 0 then (t, None) else (Write(c, t, key, now), WriteAnswer(c, t, key, now))
  }

  function Success(c: Config, t: Table, key: string): Table {
    if c.maxAttempts <= 0 then t else t - {key}
  }

  class SqliteAuthStore {
    const c: Config
    var attempts: Table

    constructor (c: Config)
      ensures this.c == c && attempts == map[]
    {
      this.c := c;
      attempts := map[];
    }

    method ReserveLoginAttempt(key: string, now: real) returns (retryAfter: Option<real>)
      modifies this
      ensures (attempts, retryAfter) == Reserve(c, old(attempts), key, now)
      ensures c.maxAttempts <= 0 ==> attempts == old(attempts) && retryAfter.None?
      ensures key in old(attempts) && old(attempts)[key].start > now - c.window
              && old(attempts)[key].count >= c.maxAttempts > 0 ==>
                attempts == old(attempts) && retryAfter == Some(old(attempts)[key].start + c.window - now)
    {
      if c.maxAttempts <= 0 {
        return None;
      }
      if key in attempts && attempts[key].start > now - c.window && attempts[key].count >= c.maxAttempts {
        return Some(c.window - (now - attempts[key].start));
      }
      attempts := Purge(c, attempts, now);
      if key !in attempts && |attempts| >= c.rowCap && attempts != map[] {
        attempts := attempts - {c.pick(Starts(attempts))};
      }
      if key in attempts {
        attempts := attempts[key := attempts[key].(count := attempts[key].count + 1)];
      } else {
        attempts := attempts[key := Row(1, now)];
      }
      var row := attempts[key];
      if row.count > c.maxAttempts {
        return Some(c.window - (now - row.start));
      }
      retryAfter := None;
    }

    method RecordLoginSuccess(key: string)
      modifies this
      ensures attempts == Success(c, old(attempts), key)
      ensures c.maxAttempts <= 0 ==> attempts == old(attempts)
      ensures c.maxAttempts > 0 ==> key !in attempts && forall k | k != key ::
                (k in attempts <==> k in old(attempts)) && (k in attempts ==> attempts[k] == old(attempts)[k])
    {
      if c.maxAttempts <= 0 {
        return;
      }
      attempts := attempts - {key};
    }
  }

  // ----- The fast path refines the write path

  datatype Call = Attempt(key: string, now: real) | Succeed(key: string)

  function ReserveBy(c: Config, fast: bool, t: Table, key: string, now: real): (Table, Option<real>) {
    if fast then Reserve(c, t, key, now) else ReserveByWriting(c, t, key, now)
  }

  function Answers(c: Config, fast: bool, t: Table, calls: seq<Call>): seq<Option<real>>
    decreases |calls|
  {
    if calls == [] then []
    else
      match calls[0]
      case Attempt(key, now) =>
        var (u, a) := ReserveBy(c, fast, t, key, now);
        [a] + Answers(c, fast, u, calls[1..])
      case Succeed(key) => Answers(c, fast, Success(c, t, key), calls[1..])
  }

  /** The calls' clock values are at least `now` and never fall. */
  ghost predicate ClockFrom(calls: seq<Call>, now: real) {
    if calls == [] then true
    else if calls[0].Attempt? then now <= calls[0].now && ClockFrom(calls[1..], calls[0].now)
    else ClockFrom(calls[1..], now)
  }

  /** Live rows agree on their start, and on their count or on being past the limit. */
  ghost predicate Related(c: Config, a: Table, b: Table, now: real) {
    forall k ::
      && ((k in a && Live(c, a[k], now)) <==> (k in b && Live(c, b[k], now)))
      && (k in a && Live(c, a[k], now) ==>
            && a[k].start == b[k].start
            && (a[k].count == b[k].count || (a[k].count >= c.maxAttempts && b[k].count >= c.maxAttempts)))
  }

  lemma RelatedLater(c: Config, a: Table, b: Table, now: real, later: real)
    requires Related(c, a, b, now) && now <= later
    ensures Related(c, a, b, later)
  {
    forall k
      ensures (k in a && Live(c, a[k], later)) ==> (k in a && Live(c, a[k], now))
      ensures (k in b && Live(c, b[k], later)) ==> (k in b && Live(c, b[k], now))
    {
    }
  }

  lemma PurgeEvictAgree(c: Config, a: Table, b: Table, key: string, now: real)
    requires Related(c, a, b, now)
    ensures Starts(Evict(c, Purge(c, a, now), key)) == Starts(Evict(c, Purge(c, b, now), key))
    ensures Related(c, Evict(c, Purge(c, a, now), key), Evict(c, Purge(c, b, now), key), now)
    ensures forall k | k in Evict(c, Purge(c, a, now), key) :: k in a && Live(c, a[k], now)
  {
    var p, q := Purge(c, a, now), Purge(c, b, now);
    assert p.Keys == q.Keys;
    assert |p| == |p.Keys| && |q| == |q.Keys|;
    assert Starts(p) == Starts(q);
  }

  lemma AttemptAgrees(c: Config, a: Table, b: Table, key: string, now: real)
    requires c.maxAttempts > 0 && Related(c, a, b, now)
    ensures Reserve(c, a, key, now).1 == ReserveByWriting(c, b, key, now).1
    ensures Related(c, Reserve(c, a, key, now).0, ReserveByWriting(c, b, key, now).0, now)
  {
    PurgeEvictAgree(c, a, b, key, now);
    if FastAnswer(c, a, key, now).Some? {
      var q := Purge(c, b, now);
      assert key in q && Evict(c, q, key) == q;
    } else {
      var p, q := Evict(c, Purge(c, a, now), key), Evict(c, Purge(c, b, now), key);
      assert key in p <==> key in Starts(p);
      assert key in q <==> key in Starts(q);
      assert key in p ==> p[key].count == q[key].count && p[key].start == Starts(p)[key];
    }
  }

  /** With a clock that never steps back, the limiter with the read-only path gives every answer
      of the limiter that always writes: skipped purges and evictions are never observable. */
  lemma {:induction false} FastPathRefinesWritePath(c: Config, a: Table, b: Table, calls: seq<Call>, now: real)
    requires Related(c, a, b, now) && ClockFrom(calls, now)
    ensures Answers(c, true, a, calls) == Answers(c, false, b, calls)
    decreases |calls|
  {
    if calls != [] {
      match calls[0]
      case Attempt(key, at) =>
        RelatedLater(c, a, b, now, at);
        if c.maxAttempts > 0 {
          AttemptAgrees(c, a, b, key, at);
        }
        FastPathRefinesWritePath(c, Reserve(c, a, key, at).0, ReserveByWriting(c, b, key, at).0, calls[1..], at);
      case Succeed(key) =>
        FastPathRefinesWritePath(c, Success(c, a, key), Success(c, b, key), calls[1..], now);
    }
  }

  lemma AnswersCons(c: Config, fast: bool, t: Table, call: Call, rest: seq<Call>)
    requires call.Attempt?
    ensures var (u, a) := ReserveBy(c, fast, t, call.key, call.now);
            Answers(c, fast, t, [call] + rest) == [a] + Answers(c, fast, u, rest)
  {
    assert ([call] + rest)[1..] == rest;
  }

  /** The tables along four attempts give the last answer. */
  lemma FourthAnswer(c: Config, fast: bool, calls: seq<Call>, t0: Table, t1: Table, t2: Table, t3: Table)
    requires |calls| == 4 && forall i | 0 <= i < 4 :: calls[i].Attempt?
    requires ReserveBy(c, fast, t0, calls[0].key, calls[0].now).0 == t1
    requires ReserveBy(c, fast, t1, calls[1].key, calls[1].now).0 == t2
    requires ReserveBy(c, fast, t2, calls[2].key, calls[2].now).0 == t3
    ensures |Answers(c, fast, t0, calls)| == 4
    ensures Answers(c, fast, t0, calls)[3] == ReserveBy(c, fast, t3, calls[3].key, calls[3].now).1
  {
    assert calls == [calls[0]] + ([calls[1]] + ([calls[2]] + ([calls[3]] + [])));
    AnswersCons(c, fast, t0, calls[0], [calls[1]] + ([calls[2]] + ([calls[3]] + [])));
    AnswersCons(c, fast, t1, calls[1], [calls[2]] + ([calls[3]] + []));
    AnswersCons(c, fast, t2, calls[2], [calls[3]] + []);
    AnswersCons(c, fast, t3, calls[3], []);
  }

  /** The clock condition is needed: after a step back, a row that only the writing limiter purged
      tells the two apart. */
  lemma ClockStepBackIsObservable(pick: map<string, real> -> string)
    ensures var c := Config(10.0, 1, 100, pick);
            var calls := [Attempt("x", 6.0), Attempt("y", 15.0), Attempt("y", 17.0), Attempt("x", 10.0)];
            Answers(c, true, map[], calls) != Answers(c, false, map[], calls)
  {
    var c := Config(10.0, 1, 100, pick);
    var (x, y) := (Row(1, 6.0), Row(1, 15.0));
    var t1: Table := map["x" := x];
    var t2: Table := map["x" := x, "y" := y];
    assert Purge(c, map[], 6.0) == map[];
    assert Write(c, map[], "x", 6.0) == t1;
    assert Purge(c, t1, 15.0) == t1 && |t1| == 1;
    assert Write(c, t1, "y", 15.0) == t2;
    assert FastAnswer(c, t2, "y", 17.0) == Some(8.0);
    assert FastAnswer(c, t2, "x", 10.0) == Some(6.0);
    var t3: Table := map["y" := y.(count := 2)];
    assert Purge(c, t2, 17.0) == map["y" := y];
    assert Write(c, t2, "y", 17.0) == t3;
    assert Purge(c, t3, 10.0) == t3;
    assert WriteAnswer(c, t3, "x", 10.0) == None by { assert |t3| == 1; }
    var calls := [Attempt("x", 6.0), Attempt("y", 15.0), Attempt("y", 17.0), Attempt("x", 10.0)];
    FourthAnswer(c, true, calls, map[], t1, t2, t2);
    FourthAnswer(c, false, calls, map[], t1, t2, t3);
  }

  // ----- The exact clock condition

  /** The attempts of `keys` at the clock readings `nows`. */
  function AttemptsAt(keys: seq<string>, nows: seq<real>): seq<Call>
    requires |keys| == |nows|
  {
    seq(|keys|, i requires 0 <= i < |keys| => Attempt(keys[i], nows[i]))
  }

  predicate NeverFalls(nows: seq<real>) {
    forall i | 0 < i < |nows| :: nows[i - 1] <= nows[i]
  }

  /** The two limiters answer alike at these clock readings, whatever the table and the identifiers. */
  ghost predicate SameAnswers(c: Config, nows: seq<real>) {
    forall t: Table, keys: seq<string> | |keys| == |nows| ::
      Answers(c, true, t, AttemptsAt(keys, nows)) == Answers(c, false, t, AttemptsAt(keys, nows))
  }

  lemma {:induction false} RisingIsClockFrom(keys: seq<string>, nows: seq<real>, now: real)
    requires |keys| == |nows| && NeverFalls(nows) && (nows != [] ==> now <= nows[0])
    ensures ClockFrom(AttemptsAt(keys, nows), now)
    decreases |nows|
  {
    if nows != [] {
      assert AttemptsAt(keys, nows)[1..] == AttemptsAt(keys[1..], nows[1..]);
      assert forall i | 0 < i < |nows[1..]| :: nows[1..][i] == nows[i + 1] && nows[1..][i - 1] == nows[i];
      RisingIsClockFrom(keys[1..], nows[1..], nows[0]);
    }
  }

  lemma {:induction false} OneAnswerEach(c: Config, fast: bool, t: Table, calls: seq<Call>)
    requires forall i | 0 <= i < |calls| :: calls[i].Attempt?
    ensures |Answers(c, fast, t, calls)| == |calls|
    decreases |calls|
  {
    if calls != [] {
      OneAnswerEach(c, fast, ReserveBy(c, fast, t, calls[0].key, calls[0].now).0, calls[1..]);
    }
  }

  const BLOCKED := "blocked"
  const EXPIRING := "expiring"

  /** Two used-up rows: one that stays live up to `high`, and one that expires exactly there. `u` is
      the writing limiter's table, which may have counted further or dropped the second. */
  ghost predicate Witness(c: Config, t: Table, u: Table, high: real) {
    && BLOCKED in t && BLOCKED in u && t[BLOCKED].count >= c.maxAttempts && Live(c, t[BLOCKED], high)
    && t[BLOCKED].start == u[BLOCKED].start
    && EXPIRING in t && t[EXPIRING] == Row(c.maxAttempts, high - c.window)
    && (EXPIRING in u ==> u[EXPIRING] == t[EXPIRING])
  }

  /** An attempt of the blocked identifier leaves the reading limiter's table alone; at `high` the
      writing limiter drops the expired row. */
  lemma WitnessStep(c: Config, t: Table, u: Table, high: real, now: real)
    requires c.maxAttempts > 0 && Witness(c, t, u, high) && now <= high
    ensures Reserve(c, t, BLOCKED, now).0 == t
    ensures Witness(c, t, Write(c, u, BLOCKED, now), high)
    ensures now == high ==> EXPIRING !in Write(c, u, BLOCKED, now)
  {
    assert Live(c, t[BLOCKED], now);
    assert BLOCKED in Purge(c, u, now);
  }

  /** Before `high` the dropped row would still be live: one limiter refuses, the other admits. */
  lemma WitnessDiffers(c: Config, t: Table, u: Table, high: real, low: real)
    requires c.maxAttempts > 0 && Witness(c, t, u, high) && EXPIRING !in u && low < high
    ensures Reserve(c, t, EXPIRING, low).1.Some? && WriteAnswer(c, u, EXPIRING, low).None?
  {
    assert EXPIRING !in Evict(c, Purge(c, u, low), EXPIRING);
  }

  /** `n` attempts of the blocked identifier, one at `high`, and one of the other identifier before it. */
  lemma {:induction false} FallIsObserved(c: Config, t: Table, u: Table, calls: seq<Call>, n: nat, high: real)
    requires c.maxAttempts > 0 && Witness(c, t, u, high) && n + 1 < |calls|
    requires forall i | 0 <= i < |calls| :: calls[i].Attempt?
    requires forall i | 0 <= i <= n :: calls[i].key == BLOCKED && calls[i].now <= high
    requires calls[n].now == high && calls[n + 1].key == EXPIRING && calls[n + 1].now < high
    ensures |Answers(c, true, t, calls)| == |Answers(c, false, u, calls)| == |calls|
    ensures Answers(c, true, t, calls)[n + 1] != Answers(c, false, u, calls)[n + 1]
    decreases n
  {
    OneAnswerEach(c, true, t, calls);
    OneAnswerEach(c, false, u, calls);
    var u1 := Write(c, u, BLOCKED, calls[0].now);
    WitnessStep(c, t, u, high, calls[0].now);
    assert Answers(c, true, t, calls)[1..] == Answers(c, true, t, calls[1..]);
    assert Answers(c, false, u, calls)[1..] == Answers(c, false, u1, calls[1..]);
    if n == 0 {
      WitnessDiffers(c, t, u1, high, calls[1].now);
    } else {
      FallIsObserved(c, t, u1, calls[1..], n - 1, high);
    }
  }

  lemma FirstFall(nows: seq<real>) returns (n: nat)
    requires !NeverFalls(nows)
    ensures n + 1 < |nows| && nows[n + 1] < nows[n] && forall i | 0 <= i <= n :: nows[i] <= nows[n]
  {
    n := 0;
    while nows[n] <= nows[n + 1]
      invariant n + 1 < |nows| && forall i | 0 <= i <= n :: nows[i] <= nows[n]
      invariant forall i | 0 < i <= n :: nows[i - 1] <= nows[i]
      decreases |nows| - n
    {
      assert n + 2 == |nows| ==> NeverFalls(nows);
      n := n + 1;
    }
  }

  /** The two limiters answer alike at given clock readings, on every table and for every list of
      identifiers, if and only if the readings never fall. */
  lemma SameAnswersIffClockNeverFalls(c: Config, nows: seq<real>)
    requires c.maxAttempts > 0
    ensures SameAnswers(c, nows) <==> NeverFalls(nows)
  {
    if NeverFalls(nows) {
      forall t: Table, keys: seq<string> | |keys| == |nows|
        ensures Answers(c, true, t, AttemptsAt(keys, nows)) == Answers(c, false, t, AttemptsAt(keys, nows))
      {
        var now := if nows == [] then 0.0 else nows[0];
        RisingIsClockFrom(keys, nows, now);
        FastPathRefinesWritePath(c, t, t, AttemptsAt(keys, nows), now);
      }
    } else {
      var n := FirstFall(nows);
      var high := nows[n];
      var keys := seq(|nows|, i => if i <= n then BLOCKED else EXPIRING);
      var t: Table := map[BLOCKED := Row(c.maxAttempts, high - c.window + 1.0),
                          EXPIRING := Row(c.maxAttempts, high - c.window)];
      FallIsObserved(c, t, t, AttemptsAt(keys, nows), n, high);
    }
  }

  // ----- The bound, over every interleaving

  /** The transactions of concurrent calls, in the order the writer lock serializes them. A stale
      fast read changes no table, so a call that got past it is just its write. Clock values are
      arbitrary here. */
  datatype Event = Wrote(key: string, now: real) | Succeeded(key: string)

  function After(c: Config, t: Table, ev: Event): Table {
    match ev
    case Wrote(key, now) => Write(c, t, key, now)
    case Succeeded(key) => Success(c, t, key)
  }

  function Final(c: Config, t: Table, events: seq<Event>): Table
    decreases |events|
  {
    if events == [] then t else Final(c, After(c, t, events[0]), events[1..])
  }

  /** The number of attempts admitted for `k`. */
  function Admitted(c: Config, t: Table, events: seq<Event>, k: string): nat
    decreases |events|
  {
    if events == [] then 0
    else
      var ev := events[0];
      (if ev.Wrote? && ev.key == k && WriteAnswer(c, t, k, ev.now).None? then 1 else 0)
      + Admitted(c, After(c, t, ev), events[1..], k)
  }

  /** The event does not remove the row of `k`. */
  predicate Keeps(c: Config, t: Table, ev: Event, k: string) {
    k in t ==>
      match ev
      case Wrote(key, now) => k in Evict(c, Purge(c, t, now), key)
      case Succeeded(key) => key != k
  }

  predicate KeepsAll(c: Config, t: Table, events: seq<Event>, k: string)
    decreases |events|
  {
    events == [] || (Keeps(c, t, events[0], k) && KeepsAll(c, After(c, t, events[0]), events[1..], k))
  }

  function Used(c: Config, t: Table, k: string): int {
    if k !in t then 0 else if t[k].count < c.maxAttempts then t[k].count else c.maxAttempts
  }

  /** A row is removed only by its expiry, by its identifier's success, or as the evicted one. */
  lemma RemovalCauses(c: Config, t: Table, ev: Event, k: string)
    requires k in t
    ensures Keeps(c, t, ev, k) <==> match ev {
      case Wrote(key, now) =>
        var p := Purge(c, t, now);
        now < t[k].start + c.window && (key in p || |p| < c.rowCap || c.pick(Starts(p)) != k)
      case Succeeded(key) => key != k
    }
  {
  }

  /** Admissions during a row's life are exactly min(failure_count, max): whatever the interleaving,
      an identifier gets no more than `maxAttempts` until its row is removed. */
  lemma {:induction false} AdmissionsOfOneRow(c: Config, t: Table, events: seq<Event>, k: string)
    requires c.maxAttempts > 0 && KeepsAll(c, t, events, k)
    ensures Admitted(c, t, events, k) == Used(c, Final(c, t, events), k) - Used(c, t, k)
    decreases |events|
  {
    if events != [] {
      AdmissionsOfOneRow(c, After(c, t, events[0]), events[1..], k);
    }
  }

  lemma AtMostMaxAdmissions(c: Config, t: Table, events: seq<Event>, k: string)
    requires c.maxAttempts > 0 && KeepsAll(c, t, events, k) && (k in t ==> t[k].count >= 0)
    ensures Admitted(c, t, events, k) <= c.maxAttempts
  {
    AdmissionsOfOneRow(c, t, events, k);
  }

  function Largest(a: int, b: int): int {
    if a < b then b else a
  }

  lemma EvictSize(c: Config, t: Table, key: string)
    requires PicksOldest(c)
    ensures key in Evict(c, t, key) ==> key in t
    ensures key !in t && |t| >= c.rowCap && |t| > 0 ==> |Evict(c, t, key)| == |t| - 1
    ensures |Evict(c, t, key)| <= |t|
  {
    var e := Evict(c, t, key);
    if key !in t && |t| >= c.rowCap && t != map[] {
      assert Starts(t).Keys == t.Keys;
      var v := c.pick(Starts(t));
      assert v in t.Keys;
      assert t.Keys == e.Keys + {v};
    }
  }

  lemma CountSize(t: Table, key: string, now: real)
    ensures |Count(t, key, now)| == |t| + if key in t then 0 else 1
  {
    assert Count(t, key, now).Keys == t.Keys + {key};
  }

  lemma WriteSize(c: Config, t: Table, key: string, now: real)
    requires PicksOldest(c)
    ensures |Write(c, t, key, now)| <= Largest(|t|, Largest(c.rowCap, 1))
  {
    var p := Purge(c, t, now);
    SubsetSize(p.Keys, t.Keys);
    EvictSize(c, p, key);
    CountSize(Evict(c, p, key), key, now);
  }

  lemma SubsetSize(a: set<string>, b: set<string>)
    requires a <= b
    ensures |a| <= |b|
  {
    assert b == a + (b - a);
  }

  /** The table never outgrows the row cap, one row, or its initial size. */
  lemma {:induction false} TableBound(c: Config, t: Table, events: seq<Event>)
    requires PicksOldest(c)
    ensures |Final(c, t, events)| <= Largest(|t|, Largest(c.rowCap, 1))
    decreases |events|
  {
    if events != [] {
      match events[0] {
        case Wrote(key, now) => WriteSize(c, t, key, now);
        case Succeeded(key) => SubsetSize((t - {key}).Keys, t.Keys);
      }
      TableBound(c, After(c, t, events[0]), events[1..]);
    }
  }

  /** When the limiter is on, the first row outgrows the cap if and only if the cap is below one: an
      empty table has nothing to evict. */
  lemma CapExceededIff(c: Config, key: string, now: real)
    requires c.maxAttempts > 0
    ensures |Reserve(c, map[], key, now).0| > c.rowCap <==> c.rowCap < 1
  {
    assert Purge(c, map[], now) == map[];
    assert Write(c, map[], key, now) == map[key := Row(1, now)];
  }

  /** A success starts an identifier over, whatever its row said: it gets `maxAttempts` further
      admissions, as if it had never failed, and the row of no other identifier changes. */
  lemma SuccessStartsOver(c: Config, t: Table, key: string, events: seq<Event>)
    requires c.maxAttempts > 0 && KeepsAll(c, Success(c, t, key), events, key)
    ensures Admitted(c, Success(c, t, key), events, key) == Used(c, Final(c, Success(c, t, key), events), key)
    ensures forall now :: Reserve(c, Success(c, t, key), key, now).1.None?
    ensures forall k, now | k != key :: FastAnswer(c, Success(c, t, key), k, now) == FastAnswer(c, t, k, now)
  {
    AdmissionsOfOneRow(c, Success(c, t, key), events, key);
  }

  /** Attempts of one identifier at the given clock readings. */
  function AttemptsOf(key: string, nows: seq<real>): seq<Call> {
    seq(|nows|, i requires 0 <= i < |nows| => Attempt(key, nows[i]))
  }

  /** The window is fixed by the first attempt: `done` attempts after it, the row has counted them and
      kept its start, and from `maxAttempts` on every answer is what is left of that window. */
  lemma {:induction false} WindowFrom(
    c: Config, fast: bool, t: Table, key: string, nows: seq<real>, start: real, done: nat)
    requires c.maxAttempts > 0 && key in t && t[key].start == start
    requires t[key].count == done || (t[key].count >= c.maxAttempts && done >= c.maxAttempts)
    requires forall i | 0 <= i < |nows| :: nows[i] < start + c.window
    ensures var answers := Answers(c, fast, t, AttemptsOf(key, nows));
            && |answers| == |nows|
            && forall i | 0 <= i < |nows| ::
                 answers[i] == if done + i < c.maxAttempts then None else Some(start + c.window - nows[i])
    decreases |nows|
  {
    if nows != [] {
      var u := ReserveBy(c, fast, t, key, nows[0]).0;
      assert AttemptsOf(key, nows)[1..] == AttemptsOf(key, nows[1..]);
      assert key in Purge(c, t, nows[0]);
      WindowFrom(c, fast, u, key, nows[1..], start, done + 1);
    }
  }

  /** On an empty table, any attempts of one identifier within a window of its first one: the first
      `maxAttempts` are admitted, and every later one is told what is left of the window that the
      first attempt opened. */
  lemma FixedWindow(c: Config, fast: bool, key: string, nows: seq<real>)
    requires c.maxAttempts > 0 && nows != []
    requires forall i | 0 <= i < |nows| :: nows[i] < nows[0] + c.window
    ensures var answers := Answers(c, fast, map[], AttemptsOf(key, nows));
            && |answers| == |nows|
            && forall i | 0 <= i < |nows| ::
                 answers[i] == if i < c.maxAttempts then None else Some(c.window - (nows[i] - nows[0]))
  {
    var u := ReserveBy(c, fast, map[], key, nows[0]).0;
    assert Purge(c, map[], nows[0]) == map[];
    assert u == map[key := Row(1, nows[0])];
    assert AttemptsOf(key, nows)[1..] == AttemptsOf(key, nows[1..]);
    WindowFrom(c, fast, u, key, nows[1..], nows[0], 1);
  }

  /** After a refusal and with no other call, the next attempt is admitted exactly when at least the
      announced time has passed. */
  lemma RetryAfterIsExact(c: Config, t: Table, key: string, now: real, wait: real)
    requires c.maxAttempts > 0 && wait >= 0.0
    requires Reserve(c, t, key, now).1.Some?
    ensures var (u, a) := Reserve(c, t, key, now);
            Reserve(c, u, key, now + wait).1 == if wait < a.value then Some(a.value - wait) else None
  {
    var (u, a) := Reserve(c, t, key, now);
    assert key in u && u[key].count >= c.maxAttempts && a.value == RetryAfter(c, u[key], now);
    if wait >= a.value {
      assert key !in Purge(c, u, now + wait);
    }
  }
}
