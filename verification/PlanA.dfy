/**
 Plan A, the scrape deduplication of one tick, and the collection of a job's digest that follows it.
 A source is needed as often as the most frequent enabled job that references it, and is scraped
 only when its latest record is older than that.
 */
module PlanA {
  import opened Wrappers
  import opened Jobs
  import opened Scheduler

  datatype Key = Key(owner: string, source: string)

  datatype Scrape = Scrape(key: Key, ts: int)

  // ----- History

  /** `history(owner, source, limit=1)`: ORDER BY ts DESC, id DESC, the position being the id. */
  function Latest(t: seq<Scrape>, k: Key): Option<Scrape> {
    if t == [] then None
    else
      var n := |t| - 1;
      var before := Latest(t[..n], k);
      if t[n].key == k && (before.None? || before.value.ts <= t[n].ts) then Some(t[n]) else before
  }

  /** It is a record of the source, and none of the source's records is newer. */
  lemma {:induction false} LatestMeaning(t: seq<Scrape>, k: Key)
    ensures Latest(t, k).None? <==> forall r | r in t :: r.key != k
    ensures Latest(t, k).Some? ==>
              && Latest(t, k).value in t && Latest(t, k).value.key == k
              && forall r | r in t && r.key == k :: r.ts <= Latest(t, k).value.ts
  {
    if t != [] {
      var n := |t| - 1;
      LatestMeaning(t[..n], k);
      assert t == t[..n] + [t[n]];
      assert forall r :: r in t <==> r in t[..n] || r == t[n];
    }
  }

  lemma LatestAppend(t: seq<Scrape>, r: Scrape, k: Key)
    ensures Latest(t + [r], k) ==
            if r.key == k && (Latest(t, k).None? || Latest(t, k).value.ts <= r.ts) then Some(r) else Latest(t, k)
  {
    assert (t + [r])[..|t|] == t;
  }

  // ----- Cadence

  /** `now` falls between occurrences `k` and `k + 1`, and `p` is the distance of the next two. */
  ghost predicate PeriodAt(g: Grid, now: int, k: int, p: int) {
    g(k) <= now < g(k + 1) && p == g(k + 2) - g(k + 1)
  }

  /** `p` is the period of the job at the tick, its cron text being read in UTC. */
  ghost predicate HasPeriod(grids: Grids, j: Job, now: int, p: int) {
    var grid := grids(Schedule(j.schedule.cron, UTC));
    grid.Some? && exists k :: PeriodAt(grid.value, now, k, p)
  }

  /** `_job_period`: the distance of the next two occurrences after the tick. */
  function Period(g: Grid, now: int): (p: int)
    requires StrictlyIncreasing(g)
    ensures p > 0
  {
    var k := WindowIndex(g, now);
    g(k + 2) - g(k + 1)
  }

  /** The cron text of the job, read in UTC as `_job_period` does. */
  function InUtc(grids: Grids, j: Job): Option<Grid> {
    grids(Schedule(j.schedule.cron, UTC))
  }

  /** `_job_period` raises for none of the jobs. */
  predicate Readable(grids: Grids, jobs: seq<Job>) {
    forall j | j in jobs :: InUtc(grids, j).Some?
  }

  function JobPeriod(grids: Grids, j: Job, now: int): int
    requires ValidGrids(grids) && InUtc(grids, j).Some?
  {
    Period(InUtc(grids, j).value, now)
  }

  /** Whenever the tick falls between two occurrences, the period is the distance of the two after it. */
  lemma PeriodMeaning(grids: Grids, j: Job, now: int, p: int)
    requires ValidGrids(grids) && InUtc(grids, j).Some?
    ensures HasPeriod(grids, j, now, p) <==> p == JobPeriod(grids, j, now)
  {
    var g := InUtc(grids, j).value;
    var k := WindowIndex(g, now);
    WindowIsLatestOccurrence(g, now, k);
    assert PeriodAt(g, now, k, g(k + 2) - g(k + 1));
    forall i, q | PeriodAt(g, now, i, q) ensures i == k {
      assert i < k ==> g(i + 1) <= g(k);
    }
  }

  predicate References(j: Job, k: Key) {
    j.owner == k.owner && k.source in j.sources
  }

  /** One job's wish to have a source scraped at its own period. */
  datatype Request = Request(key: Key, period: int)

  function SourceRequests(owner: string, period: int, sources: seq<string>): seq<Request> {
    if sources == [] then []
    else
      var n := |sources| - 1;
      SourceRequests(owner, period, sources[..n]) + [Request(Key(owner, sources[n]), period)]
  }

  function Requests(grids: Grids, now: int, jobs: seq<Job>): seq<Request>
    requires ValidGrids(grids) && Readable(grids, jobs)
  {
    if jobs == [] then []
    else
      var (n, j) := (|jobs| - 1, jobs[|jobs| - 1]);
      Requests(grids, now, jobs[..n]) + SourceRequests(j.owner, JobPeriod(grids, j, now), j.sources)
  }

  /** The `required_period` dictionary: its keys in insertion order, and its values. */
  function Union(reqs: seq<Request>): (seq<Key>, map<Key, int>) {
    if reqs == [] then ([], map[])
    else
      var (n, r) := (|reqs| - 1, reqs[|reqs| - 1]);
      var (order, required) := Union(reqs[..n]);
      (if r.key in required then order else order + [r.key],
       if r.key !in required || r.period < required[r.key] then required[r.key := r.period] else required)
  }

  lemma {:induction false} UnionMeaning(reqs: seq<Request>)
    ensures var (order, required) := Union(reqs);
            && (forall i, j :: 0 <= i < j < |order| ==> order[i] != order[j])
            && (forall k :: k in order <==> k in required)
            && (forall q | q in reqs :: q.key in required && required[q.key] <= q.period)
            && (forall k | k in required :: Request(k, required[k]) in reqs)
  {
    if reqs != [] {
      var (n, r) := (|reqs| - 1, reqs[|reqs| - 1]);
      UnionMeaning(reqs[..n]);
      assert forall q :: q in reqs <==> q in reqs[..n] || q == r by { assert reqs == reqs[..n] + [r]; }
      var (order, required) := Union(reqs[..n]);
      if r.key !in required {
        assert forall k :: k in order + [r.key] <==> k in order || k == r.key;
      }
    }
  }

  lemma {:induction false} SourceRequestsMeaning(owner: string, period: int, sources: seq<string>, q: Request)
    ensures q in SourceRequests(owner, period, sources) <==>
            q.key.owner == owner && q.key.source in sources && q.period == period
  {
    if sources != [] {
      var n := |sources| - 1;
      SourceRequestsMeaning(owner, period, sources[..n], q);
      assert sources == sources[..n] + [sources[n]];
    }
  }

  lemma {:induction false} RequestsMeaning(grids: Grids, now: int, jobs: seq<Job>, q: Request)
    requires ValidGrids(grids) && Readable(grids, jobs)
    ensures q in Requests(grids, now, jobs) <==>
            exists j | j in jobs :: References(j, q.key) && JobPeriod(grids, j, now) == q.period
  {
    if jobs != [] {
      var (n, j) := (|jobs| - 1, jobs[|jobs| - 1]);
      RequestsMeaning(grids, now, jobs[..n], q);
      SourceRequestsMeaning(j.owner, JobPeriod(grids, j, now), j.sources, q);
      assert jobs == jobs[..n] + [j];
      assert forall i :: i in jobs <==> i in jobs[..n] || i == j;
    }
  }

  /** The dictionary that the first loop of Plan A builds. */
  function Required(grids: Grids, now: int, jobs: seq<Job>): (r: (seq<Key>, map<Key, int>))
    requires ValidGrids(grids) && Readable(grids, jobs)
    ensures forall k | k in r.0 :: k in r.1
  {
    UnionMeaning(Requests(grids, now, jobs));
    Union(Requests(grids, now, jobs))
  }

  /** A key comes from a job that references it, with that job's period. */
  lemma RequiredComesFrom(grids: Grids, now: int, jobs: seq<Job>, k: Key)
    requires ValidGrids(grids) && Readable(grids, jobs) && k in Required(grids, now, jobs).1
    ensures var p := Required(grids, now, jobs).1[k];
            p > 0 && exists j | j in jobs :: References(j, k) && HasPeriod(grids, j, now, p)
  {
    var p := Required(grids, now, jobs).1[k];
    UnionMeaning(Requests(grids, now, jobs));
    RequestsMeaning(grids, now, jobs, Request(k, p));
    var j :| j in jobs && References(j, k) && JobPeriod(grids, j, now) == p;
    PeriodMeaning(grids, j, now, p);
  }

  /** A referenced source is a key, with no longer a period than that of the job. */
  lemma RequiredIsLeast(grids: Grids, now: int, jobs: seq<Job>, k: Key, j: Job)
    requires ValidGrids(grids) && Readable(grids, jobs) && j in jobs && References(j, k)
    ensures k in Required(grids, now, jobs).1
    ensures forall p | HasPeriod(grids, j, now, p) :: Required(grids, now, jobs).1[k] <= p
  {
    UnionMeaning(Requests(grids, now, jobs));
    RequestsMeaning(grids, now, jobs, Request(k, JobPeriod(grids, j, now)));
    forall p | HasPeriod(grids, j, now, p) ensures p == JobPeriod(grids, j, now) {
      PeriodMeaning(grids, j, now, p);
    }
  }

  /** The dictionary holds exactly the referenced sources, each once and with the least period of an
      enabled job that references it. */
  lemma CadenceUnion(grids: Grids, now: int, jobs: seq<Job>, k: Key)
    requires ValidGrids(grids) && Readable(grids, jobs)
    ensures var (order, required) := Required(grids, now, jobs);
            && (k in order <==> k in required)
            && (k in required <==> exists j | j in jobs :: References(j, k))
            && (k in required ==> required[k] > 0)
            && (forall j | j in jobs && References(j, k) :: k in required)
            && (k in required ==> exists j | j in jobs ::
                  j.owner == k.owner && k.source in j.sources && HasPeriod(grids, j, now, required[k]))
            && (forall j, p | j in jobs && j.owner == k.owner && k.source in j.sources && HasPeriod(grids, j, now, p) ::
                  required[k] <= p)
  {
    UnionMeaning(Requests(grids, now, jobs));
    if k in Required(grids, now, jobs).1 {
      RequiredComesFrom(grids, now, jobs, k);
    }
    forall j | j in jobs && References(j, k)
      ensures k in Required(grids, now, jobs).1
      ensures forall p | HasPeriod(grids, j, now, p) :: Required(grids, now, jobs).1[k] <= p
    {
      RequiredIsLeast(grids, now, jobs, k, j);
    }
  }

  lemma UnionSnoc(reqs: seq<Request>, r: Request)
    ensures var (order, required) := Union(reqs);
            Union(reqs + [r]) ==
              (if r.key in required then order else order + [r.key],
               if r.key !in required || r.period < required[r.key] then required[r.key := r.period] else required)
  {
    assert (reqs + [r])[..|reqs|] == reqs;
  }

  lemma SourceStep(before: seq<Request>, owner: string, period: int, sources: seq<string>, n: nat)
    requires n < |sources|
    ensures before + SourceRequests(owner, period, sources[..n + 1])
            == (before + SourceRequests(owner, period, sources[..n])) + [Request(Key(owner, sources[n]), period)]
  {
    assert sources[..n + 1][..n] == sources[..n];
  }

  /** The inner loop over the sources of one job. */
  method RequireSources(order: seq<Key>, required: map<Key, int>, owner: string, period: int, sources: seq<string>,
                        ghost before: seq<Request>)
    returns (order': seq<Key>, required': map<Key, int>)
    requires (order, required) == Union(before)
    ensures (order', required') == Union(before + SourceRequests(owner, period, sources))
  {
    order', required' := order, required;
    var n := 0;
    assert before + SourceRequests(owner, period, sources[..0]) == before;
    while n < |sources|
      invariant 0 <= n <= |sources|
      invariant (order', required') == Union(before + SourceRequests(owner, period, sources[..n]))
    {
      var key := Key(owner, sources[n]);
      ghost var seen := before + SourceRequests(owner, period, sources[..n]);
      SourceStep(before, owner, period, sources, n);
      UnionSnoc(seen, Request(key, period));
      if key !in required' {
        order' := order' + [key];
        required' := required'[key := period];
      } else if period < required'[key] {
        required' := required'[key := period];
      }
      n := n + 1;
    }
    assert sources[..n] == sources;
  }

  lemma JobStep(grids: Grids, now: int, jobs: seq<Job>, i: nat)
    requires ValidGrids(grids) && i < |jobs| && Readable(grids, jobs[..i]) && InUtc(grids, jobs[i]).Some?
    ensures Readable(grids, jobs[..i + 1])
    ensures Requests(grids, now, jobs[..i + 1]) == Requests(grids, now, jobs[..i])
              + SourceRequests(jobs[i].owner, JobPeriod(grids, jobs[i], now), jobs[i].sources)
  {
    assert jobs[..i + 1] == jobs[..i] + [jobs[i]];
    assert jobs[..i + 1][..i] == jobs[..i];
  }

  /** The first loop of Plan A. It reads every job's cron text, outside of any exception handler: one
      that cannot be read ends it, `None`. */
  method RequiredPeriods(grids: Grids, now: int, jobs: seq<Job>)
    returns (r: Option<(seq<Key>, map<Key, int>)>)
    requires ValidGrids(grids)
    ensures r.Some? <==> Readable(grids, jobs)
    ensures r.Some? ==> r.value == Required(grids, now, jobs)
  {
    var order, required := [], map[];
    var i := 0;
    while i < |jobs|
      invariant 0 <= i <= |jobs|
      invariant Readable(grids, jobs[..i])
      invariant (order, required) == Union(Requests(grids, now, jobs[..i]))
    {
      var j := jobs[i];
      if InUtc(grids, j).None? {
        return None;
      }
      JobStep(grids, now, jobs, i);
      order, required := RequireSources(
        order, required, j.owner, JobPeriod(grids, j, now), j.sources, Requests(grids, now, jobs[..i]));
      i := i + 1;
    }
    assert jobs[..i] == jobs;
    r := Some((order, required));
  }

  // ----- Scraping

  /** What the environment does with one source: whether the owner's registry resolves it, whether
      reading its history raises, whether its fetch tier is installed, and how the scrape ends. */
  datatype SourceEnv = SourceEnv(resolvable: bool, historyRaises: bool, tierAvailable: bool, scrape: Fault)

  predicate Healthy(e: SourceEnv) {
    e.resolvable && !e.historyRaises && e.tierAvailable && e.scrape == Fine
  }

  predicate FreshEnough(t: seq<Scrape>, k: Key, period: int, now: int) {
    var r := Latest(t, k);
    r.Some? && now - r.value.ts < period
  }

  /** Whether Plan A goes as far as scraping `k`. */
  predicate Attempts(t: seq<Scrape>, k: Key, period: int, e: SourceEnv, now: int) {
    e.resolvable && !e.historyRaises && !FreshEnough(t, k, period, now) && e.tierAvailable
  }

  /** The keys scraped and the history after Plan A worked through `keys`. */
  function ScrapeAll(t: seq<Scrape>, keys: seq<Key>, required: map<Key, int>, env: Key -> SourceEnv, now: int)
    : (seq<Key>, seq<Scrape>)
    requires forall k | k in keys :: k in required
  {
    if keys == [] then ([], t)
    else
      var (n, k) := (|keys| - 1, keys[|keys| - 1]);
      var (log, u) := ScrapeAll(t, keys[..n], required, env, now);
      if !Attempts(u, k, required[k], env(k), now) then (log, u)
      else (log + [k], if env(k).scrape == RaisedBefore then u else u + [Scrape(k, now)])
  }

  function Count(keys: seq<Key>, f: Key -> bool): nat {
    if keys == [] then 0
    else Count(keys[..|keys| - 1], f) + if f(keys[|keys| - 1]) then 1 else 0
  }

  ghost predicate Distinct(keys: seq<Key>) {
    forall i, j :: 0 <= i < j < |keys| ==> keys[i] != keys[j]
  }

  function Where(keys: seq<Key>, f: Key -> bool): set<Key> {
    set k | k in keys && f(k)
  }

  lemma WhereSnoc(keys: seq<Key>, f: Key -> bool, k: Key)
    requires k !in keys
    ensures |Where(keys + [k], f)| == |Where(keys, f)| + if f(k) then 1 else 0
  {
    assert forall x :: x in keys + [k] <==> x in keys || x == k;
    if f(k) {
      assert Where(keys + [k], f) == Where(keys, f) + {k};
    } else {
      assert Where(keys + [k], f) == Where(keys, f);
    }
  }

  lemma CountSnoc(keys: seq<Key>, f: Key -> bool, k: Key)
    ensures Count(keys + [k], f) == Count(keys, f) + if f(k) then 1 else 0
  {
    assert (keys + [k])[..|keys|] == keys;
  }

  lemma {:induction false} CountIs(keys: seq<Key>, f: Key -> bool)
    requires Distinct(keys)
    ensures Count(keys, f) == |Where(keys, f)|
  {
    if keys != [] {
      var (n, k) := (|keys| - 1, keys[|keys| - 1]);
      CountIs(keys[..n], f);
      assert keys == keys[..n] + [k];
      WhereSnoc(keys[..n], f, k);
      CountSnoc(keys[..n], f, k);
    }
  }

  /** The scrape of the source returned. */
  function Returned(env: Key -> SourceEnv): Key -> bool {
    (k: Key) => env(k).scrape == Fine
  }

  function Failed(env: Key -> SourceEnv): Key -> bool {
    (k: Key) => env(k).scrape != Fine
  }

  /** Reading the history of the source raised. */
  function Unread(env: Key -> SourceEnv): Key -> bool {
    (k: Key) => env(k).resolvable && env(k).historyRaises
  }

  class ScrapeStore {
    var scrapes: seq<Scrape>

    constructor (initial: seq<Scrape>)
      ensures scrapes == initial
    {
      scrapes := initial;
    }

    /** The second loop of Plan A. `scraped` counts the scrapes that
        returned, `errors` the sources whose handling raised. */
    method ScrapeRequired(order: seq<Key>, required: map<Key, int>, env: Key -> SourceEnv, now: int)
      returns (log: seq<Key>, scraped: nat, errors: nat)
      requires forall k | k in order :: k in required
      modifies this
      ensures (log, scrapes) == ScrapeAll(old(scrapes), order, required, env, now)
      ensures scraped == Count(log, Returned(env))
      ensures errors == Count(order, Unread(env)) + Count(log, Failed(env))
    {
      log, scraped, errors := [], 0, 0;
      var i := 0;
      while i < |order|
        invariant 0 <= i <= |order|
        invariant (log, scrapes) == ScrapeAll(old(scrapes), order[..i], required, env, now)
        invariant scraped == Count(log, Returned(env))
        invariant errors == Count(order[..i], Unread(env)) + Count(log, Failed(env))
      {
        var k := order[i];
        var e := env(k);
        assert order[..i + 1][..i] == order[..i];
        i := i + 1;
        if !e.resolvable {
          continue;
        }
        if e.historyRaises {
          errors := errors + 1;
          continue;
        }
        var history := Latest(scrapes, k);
        if history.Some? && now - history.value.ts < required[k] {
          continue;
        }
        if !e.tierAvailable {
          continue;
        }
        assert (log + [k])[..|log|] == log;
        log := log + [k];
        if e.scrape != RaisedBefore {
          scrapes := scrapes + [Scrape(k, now)];
        }
        if e.scrape == Fine {
          scraped := scraped + 1;
        } else {
          errors := errors + 1;
        }
      }
      assert order[..i] == order;
    }

    /** `_run_plan_a`: the counts of scrapes and errors, or `None` when it raised. */
    method RunPlanA(grids: Grids, now: int, jobs: seq<Job>, env: Key -> SourceEnv) returns (r: Option<(nat, nat)>)
      requires ValidGrids(grids)
      modifies this
      ensures r.Some? <==> Readable(grids, jobs)
      ensures scrapes == TickScrapes(grids, now, jobs, old(scrapes), env).1
      ensures r.Some? ==> r.value == PlanACounts(grids, now, jobs, old(scrapes), env)
    {
      var periods := RequiredPeriods(grids, now, jobs);
      if periods.None? {
        return None;
      }
      var (order, required) := periods.value;
      RequiredCovers(grids, now, jobs, order, required);
      var log, scraped, errors := ScrapeRequired(order, required, env, now);
      PlanAIs(grids, now, jobs, old(scrapes), env, order, required, log, scrapes);
      r := Some((scraped, errors));
    }

    /** `_collect_job_digest`: the latest record of each source of the job that has one. Reading the
        history of source `i` may raise, which ends it. */
    method CollectJobDigest(j: Job, raises: nat -> bool) returns (records: Option<seq<Scrape>>)
      ensures records == if CollectRaises(j, raises) then None else Some(Collect(scrapes, j.owner, j.sources))
    {
      var found := [];
      var i := 0;
      while i < |j.sources|
        invariant 0 <= i <= |j.sources|
        invariant forall k | 0 <= k < i :: !raises(k)
        invariant found == Collect(scrapes, j.owner, j.sources[..i])
      {
        assert j.sources[..i + 1][..i] == j.sources[..i];
        if raises(i) {
          return None;
        }
        var history := Latest(scrapes, Key(j.owner, j.sources[i]));
        if history.Some? {
          found := found + [history.value];
        }
        i := i + 1;
      }
      assert j.sources[..i] == j.sources;
      records := Some(found);
    }
  }

  predicate CollectRaises(j: Job, raises: nat -> bool) {
    exists i | 0 <= i < |j.sources| :: raises(i)
  }

  function Collect(t: seq<Scrape>, owner: string, sources: seq<string>): seq<Scrape> {
    if sources == [] then []
    else
      var n := |sources| - 1;
      var r := Latest(t, Key(owner, sources[n]));
      Collect(t, owner, sources[..n]) + if r.Some? then [r.value] else []
  }

  // ----- What a tick scrapes, and how fresh the digest is

  lemma NewScrapeIsLatest(t: seq<Scrape>, k: Key, period: int, now: int)
    requires period > 0 && !FreshEnough(t, k, period, now)
    ensures forall x :: Latest(t + [Scrape(k, now)], x) == if x == k then Some(Scrape(k, now)) else Latest(t, x)
  {
    forall x ensures Latest(t + [Scrape(k, now)], x) == if x == k then Some(Scrape(k, now)) else Latest(t, x) {
      LatestAppend(t, Scrape(k, now), x);
    }
  }

  /** Only listed sources are scraped, each at most once and judged by its history before the tick;
      a source's latest record is the tick's own if it was scraped and recorded, else the old one. */
  lemma {:induction false} ScrapeAllMeaning(
    t: seq<Scrape>, keys: seq<Key>, required: map<Key, int>, env: Key -> SourceEnv, now: int)
    requires forall k | k in keys :: k in required && required[k] > 0
    requires forall i, j :: 0 <= i < j < |keys| ==> keys[i] != keys[j]
    ensures var (log, u) := ScrapeAll(t, keys, required, env, now);
            && t <= u && (forall i | |t| <= i < |u| :: u[i].ts == now)
            && (forall i, j :: 0 <= i < j < |log| ==> log[i] != log[j])
            && (forall k :: k in log <==> k in keys && Attempts(t, k, required[k], env(k), now))
            && (forall k :: Latest(u, k) == if k in log && env(k).scrape != RaisedBefore
                                            then Some(Scrape(k, now)) else Latest(t, k))
  {
    if keys != [] {
      var (n, k) := (|keys| - 1, keys[|keys| - 1]);
      ScrapeAllMeaning(t, keys[..n], required, env, now);
      var (log, u) := ScrapeAll(t, keys[..n], required, env, now);
      assert keys == keys[..n] + [k];
      assert k !in keys[..n];
      assert forall x :: x in keys <==> x in keys[..n] || x == k;
      assert forall x :: x in log + [k] <==> x in log || x == k;
      assert Latest(u, k) == Latest(t, k);
      if Attempts(u, k, required[k], env(k), now) {
        NewScrapeIsLatest(u, k, required[k], now);
      }
    }
  }

  /** The keys scraped by a tick, and the history after it. A tick with an unreadable cron text among
      its jobs scrapes nothing. */
  function TickScrapes(grids: Grids, now: int, jobs: seq<Job>, t: seq<Scrape>, env: Key -> SourceEnv)
    : (seq<Key>, seq<Scrape>)
    requires ValidGrids(grids)
  {
    if !Readable(grids, jobs) then ([], t)
    else
      var (order, required) := Required(grids, now, jobs);
      ScrapeAll(t, order, required, env, now)
  }

  /** What a tick's Plan A adds to the summary: scrapes that returned, and sources that raised. */
  function PlanACounts(grids: Grids, now: int, jobs: seq<Job>, t: seq<Scrape>, env: Key -> SourceEnv): (nat, nat)
    requires ValidGrids(grids) && Readable(grids, jobs)
  {
    var log := TickScrapes(grids, now, jobs, t, env).0;
    (Count(log, Returned(env)), Count(Required(grids, now, jobs).0, Unread(env)) + Count(log, Failed(env)))
  }

  lemma RequiredCovers(grids: Grids, now: int, jobs: seq<Job>, order: seq<Key>, required: map<Key, int>)
    requires ValidGrids(grids) && Readable(grids, jobs) && (order, required) == Required(grids, now, jobs)
    ensures forall k | k in order :: k in required
  {
    UnionMeaning(Requests(grids, now, jobs));
  }

  lemma PlanAIs(grids: Grids, now: int, jobs: seq<Job>, t: seq<Scrape>, env: Key -> SourceEnv,
                order: seq<Key>, required: map<Key, int>, log: seq<Key>, u: seq<Scrape>)
    requires ValidGrids(grids) && Readable(grids, jobs) && (order, required) == Required(grids, now, jobs)
    requires forall k | k in order :: k in required
    requires (log, u) == ScrapeAll(t, order, required, env, now)
    ensures u == TickScrapes(grids, now, jobs, t, env).1
    ensures PlanACounts(grids, now, jobs, t, env) ==
              (Count(log, Returned(env)), Count(order, Unread(env)) + Count(log, Failed(env)))
  {
    assert TickScrapes(grids, now, jobs, t, env) == (log, u);
  }

  /** The sources that some job references. */
  function Referenced(jobs: seq<Job>): set<Key> {
    set j, s | j in jobs && s in j.sources :: Key(j.owner, s)
  }

  lemma ReferencedIs(grids: Grids, now: int, jobs: seq<Job>)
    requires ValidGrids(grids) && Readable(grids, jobs)
    ensures forall k :: k in Required(grids, now, jobs).0 <==> k in Referenced(jobs)
  {
    forall k ensures k in Required(grids, now, jobs).0 <==> k in Referenced(jobs) {
      CadenceUnion(grids, now, jobs, k);
      if j :| j in jobs && References(j, k) {
        assert k == Key(j.owner, k.source);
      }
    }
  }

  function ScrapedFine(log: seq<Key>, env: Key -> SourceEnv): set<Key> {
    set k | k in log && env(k).scrape == Fine
  }

  function ScrapeRaised(log: seq<Key>, env: Key -> SourceEnv): set<Key> {
    set k | k in log && env(k).scrape != Fine
  }

  function HistoryRaised(keys: set<Key>, env: Key -> SourceEnv): set<Key> {
    set k | k in keys && env(k).resolvable && env(k).historyRaises
  }

  lemma LogCounts(log: seq<Key>, env: Key -> SourceEnv)
    requires Distinct(log)
    ensures Count(log, Returned(env)) == |ScrapedFine(log, env)|
    ensures Count(log, Failed(env)) == |ScrapeRaised(log, env)|
  {
    CountIs(log, Returned(env));
    CountIs(log, Failed(env));
    assert Where(log, Returned(env)) == ScrapedFine(log, env);
    assert Where(log, Failed(env)) == ScrapeRaised(log, env);
  }

  lemma OrderCount(order: seq<Key>, keys: set<Key>, env: Key -> SourceEnv)
    requires Distinct(order) && forall k :: k in order <==> k in keys
    ensures Count(order, Unread(env)) == |HistoryRaised(keys, env)|
  {
    CountIs(order, Unread(env));
    assert Where(order, Unread(env)) == HistoryRaised(keys, env);
  }

  lemma DistinctKeys(grids: Grids, now: int, jobs: seq<Job>, t: seq<Scrape>, env: Key -> SourceEnv)
    requires ValidGrids(grids) && Readable(grids, jobs)
    ensures Distinct(Required(grids, now, jobs).0)
    ensures Distinct(TickScrapes(grids, now, jobs, t, env).0)
  {
    UnionMeaning(Requests(grids, now, jobs));
    TickScrapesMeaning(grids, now, jobs, t, env, Key("", ""));
  }

  /** The counts of Plan A: the scraped sources whose scrape returned, and as errors the referenced ones
      whose history could not be read and the scraped ones whose scrape raised. */
  lemma PlanACountsMeaning(grids: Grids, now: int, jobs: seq<Job>, t: seq<Scrape>, env: Key -> SourceEnv)
    requires ValidGrids(grids) && Readable(grids, jobs)
    ensures var log := TickScrapes(grids, now, jobs, t, env).0;
            PlanACounts(grids, now, jobs, t, env) ==
              (|ScrapedFine(log, env)|, |HistoryRaised(Referenced(jobs), env)| + |ScrapeRaised(log, env)|)
  {
    DistinctKeys(grids, now, jobs, t, env);
    ReferencedIs(grids, now, jobs);
    LogCounts(TickScrapes(grids, now, jobs, t, env).0, env);
    OrderCount(Required(grids, now, jobs).0, Referenced(jobs), env);
  }

  lemma TickScrapesMeaning(
    grids: Grids, now: int, jobs: seq<Job>, t: seq<Scrape>, env: Key -> SourceEnv, k: Key)
    requires ValidGrids(grids) && Readable(grids, jobs)
    ensures var (log, u) := TickScrapes(grids, now, jobs, t, env);
            var required := Required(grids, now, jobs).1;
            && (forall i, j :: 0 <= i < j < |log| ==> log[i] != log[j])
            && (k in log <==> k in required && Attempts(t, k, required[k], env(k), now))
            && Latest(u, k) == if k in log && env(k).scrape != RaisedBefore then Some(Scrape(k, now)) else Latest(t, k)
  {
    var (order, required) := Required(grids, now, jobs);
    UnionMeaning(Requests(grids, now, jobs));
    forall x | x in order ensures x in required && required[x] > 0 {
      CadenceUnion(grids, now, jobs, x);
    }
    ScrapeAllMeaning(t, order, required, env, now);
  }

  /** Every record of the source is at least as old as the period of `j` at the tick. */
  ghost predicate StaleFor(grids: Grids, j: Job, now: int, t: seq<Scrape>, k: Key) {
    exists p :: HasPeriod(grids, j, now, p) && forall r | r in t && r.key == k :: now - r.ts >= p
  }

  /** The owner's registry resolves the source, its history can be read and its tier is installed. */
  predicate Reachable(e: SourceEnv) {
    e.resolvable && !e.historyRaises && e.tierAvailable
  }

  /** Cadence: a tick scrapes a source at most once, and it scrapes it if and only if every listed cron
      text can be read, the source is reachable, and some job that references it finds every record of
      it as old as that job's own period. */
  lemma ScrapedIffStale(
    grids: Grids, now: int, jobs: seq<Job>, t: seq<Scrape>, env: Key -> SourceEnv, k: Key)
    requires ValidGrids(grids)
    ensures var log := TickScrapes(grids, now, jobs, t, env).0;
            && (forall i, j :: 0 <= i < j < |log| ==> log[i] != log[j])
            && (k in log <==>
                && (forall j | j in jobs :: grids(Schedule(j.schedule.cron, UTC)).Some?)
                && Reachable(env(k))
                && exists j | j in jobs && j.owner == k.owner && k.source in j.sources :: StaleFor(grids, j, now, t, k))
  {
    if Readable(grids, jobs) {
      TickScrapesMeaning(grids, now, jobs, t, env, k);
      CadenceUnion(grids, now, jobs, k);
      LatestMeaning(t, k);
      forall j | j in jobs && References(j, k)
        ensures HasPeriod(grids, j, now, JobPeriod(grids, j, now))
        ensures StaleFor(grids, j, now, t, k) <==>
                Latest(t, k).None? || now - Latest(t, k).value.ts >= JobPeriod(grids, j, now)
      {
        StaleIffOld(grids, j, now, t, k);
        PeriodMeaning(grids, j, now, JobPeriod(grids, j, now));
      }
      if k in Required(grids, now, jobs).1 {
        var j :| j in jobs && References(j, k) && HasPeriod(grids, j, now, Required(grids, now, jobs).1[k]);
        PeriodMeaning(grids, j, now, Required(grids, now, jobs).1[k]);
      }
    }
  }

  lemma StaleIffOld(grids: Grids, j: Job, now: int, t: seq<Scrape>, k: Key)
    requires ValidGrids(grids) && InUtc(grids, j).Some?
    ensures StaleFor(grids, j, now, t, k) <==>
            Latest(t, k).None? || now - Latest(t, k).value.ts >= JobPeriod(grids, j, now)
  {
    LatestMeaning(t, k);
    var p := JobPeriod(grids, j, now);
    PeriodMeaning(grids, j, now, p);
    forall q | HasPeriod(grids, j, now, q) ensures q == p {
      PeriodMeaning(grids, j, now, q);
    }
    if Latest(t, k).None? || now - Latest(t, k).value.ts >= p {
      assert forall r | r in t && r.key == k :: now - r.ts >= p;
    }
  }

  /** When every job that references the source has occurrences `step` apart, a reachable source is
      scraped if and only if it has no record younger than that. */
  lemma ScrapedIffOlderThanStep(
    grids: Grids, now: int, jobs: seq<Job>, t: seq<Scrape>, env: Key -> SourceEnv, k: Key, step: int)
    requires ValidGrids(grids) && Readable(grids, jobs) && Reachable(env(k))
    requires exists j | j in jobs :: References(j, k)
    requires forall j, i: int | j in jobs && References(j, k) ::
               InUtc(grids, j).value(i + 1) - InUtc(grids, j).value(i) == step
    ensures k in TickScrapes(grids, now, jobs, t, env).0 <==> forall r | r in t && r.key == k :: now - r.ts >= step
  {
    ScrapedIffStale(grids, now, jobs, t, env, k);
    forall j, p | j in jobs && References(j, k) && HasPeriod(grids, j, now, p) ensures p == step {
      var g := InUtc(grids, j).value;
      var n :| PeriodAt(g, now, n, p);
      assert g(n + 1 + 1) - g(n + 1) == step;
    }
    forall j | j in jobs && References(j, k) ensures HasPeriod(grids, j, now, step) {
      PeriodMeaning(grids, j, now, JobPeriod(grids, j, now));
    }
  }

  /** Freshness: after Plan A, Plan B collects for every healthy source of an enabled job a record that
      is its newest and younger than that job's own period. */
  lemma CollectedRecordIsFresh(
    grids: Grids, now: int, jobs: seq<Job>, t: seq<Scrape>, env: Key -> SourceEnv, j: Job, k: Key)
    requires ValidGrids(grids) && Readable(grids, jobs) && j in jobs && References(j, k) && Healthy(env(k))
    ensures var u := TickScrapes(grids, now, jobs, t, env).1;
            exists r | r in Collect(u, j.owner, j.sources) ::
              && r.key == k && (forall r' | r' in u && r'.key == k :: r'.ts <= r.ts)
              && forall p | HasPeriod(grids, j, now, p) :: now - r.ts < p
  {
    var u := TickScrapes(grids, now, jobs, t, env).1;
    TickScrapesMeaning(grids, now, jobs, t, env, k);
    CadenceUnion(grids, now, jobs, k);
    CollectHolds(u, j.owner, j.sources, k.source);
    LatestMeaning(u, k);
    PeriodMeaning(grids, j, now, JobPeriod(grids, j, now));
    forall p | HasPeriod(grids, j, now, p) ensures p == JobPeriod(grids, j, now) {
      PeriodMeaning(grids, j, now, p);
    }
  }

  lemma {:induction false} CollectHolds(t: seq<Scrape>, owner: string, sources: seq<string>, s: string)
    requires s in sources && Latest(t, Key(owner, s)).Some?
    ensures Latest(t, Key(owner, s)).value in Collect(t, owner, sources)
  {
    var n := |sources| - 1;
    if sources[n] != s {
      CollectHolds(t, owner, sources[..n], s);
    }
  }

  /** What is collected: newest records of the job's own sources, one for each source that has a
      record; and, with the two lemmas after this one, in the order of the sources. */
  lemma {:induction false} CollectMeaning(t: seq<Scrape>, owner: string, sources: seq<string>)
    ensures forall r | r in Collect(t, owner, sources) ::
              && r in t && r.key.owner == owner && r.key.source in sources
              && forall r' | r' in t && r'.key == r.key :: r'.ts <= r.ts
    ensures forall s | s in sources && (exists r | r in t :: r.key == Key(owner, s)) ::
              exists r | r in Collect(t, owner, sources) :: r.key == Key(owner, s)
  {
    if sources != [] {
      var n := |sources| - 1;
      CollectMeaning(t, owner, sources[..n]);
      LatestMeaning(t, Key(owner, sources[n]));
      assert sources == sources[..n] + [sources[n]];
    }
  }

  lemma {:induction false} CollectAppend(t: seq<Scrape>, owner: string, a: seq<string>, b: seq<string>)
    ensures Collect(t, owner, a + b) == Collect(t, owner, a) + Collect(t, owner, b)
    decreases |b|
  {
    if b == [] {
      assert a + b == a;
    } else {
      var n := |b| - 1;
      assert (a + b)[..|a + b| - 1] == a + b[..n];
      CollectAppend(t, owner, a, b[..n]);
    }
  }

  lemma CollectOne(t: seq<Scrape>, owner: string, s: string)
    ensures |Collect(t, owner, [s])| == if exists r | r in t :: r.key == Key(owner, s) then 1 else 0
  {
    LatestMeaning(t, Key(owner, s));
    assert Collect(t, owner, [s][..0]) == [];
  }

  /** There is a digest to send if and only if one of the job's own sources has a record. */
  lemma DigestIffRecord(t: seq<Scrape>, owner: string, sources: seq<string>)
    ensures Collect(t, owner, sources) != [] <==> exists r | r in t :: r.key.owner == owner && r.key.source in sources
  {
    CollectMeaning(t, owner, sources);
    if Collect(t, owner, sources) != [] {
      assert Collect(t, owner, sources)[0] in t;
    }
    if r :| r in t && r.key.owner == owner && r.key.source in sources {
      assert r.key == Key(owner, r.key.source);
    }
  }
}
