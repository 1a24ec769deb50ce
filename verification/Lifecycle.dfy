/**
 The life of a `job_runs` row under the deployment rule that one evaluator runs at a time
 (`should_start_intra_process_evaluator`). The evaluator may crash and restart anywhere. Without
 the rule a late `update_job_run`, which has no status guard, could overwrite a reaped row.
 */
module Lifecycle {
  import opened Wrappers
  import opened Jobs
  import opened JobRuns
  import opened Delivery

  /** Only evaluator `e` steps, and every listed job has the owner that its id has. */
  ghost predicate Solo(trace: Trace, e: Evaluator, owner: string -> string) {
    forall i | 0 <= i < |trace| ::
      trace[i].0 == e && (trace[i].1.Begin? ==> Owned(trace[i].1.jobs, owner))
  }

  ghost predicate Owned(jobs: seq<Job>, owner: string -> string) {
    forall j | j in jobs :: j.owner == owner(j.id)
  }

  ghost predicate NoActive(t: Table, id: string) {
    forall k | k in t && k.job == id :: !Active(t[k].status)
  }

  ghost predicate TableOk(t: Table, owner: string -> string) {
    OneActivePerJob(t) && forall k | k in t :: t[k].owner == owner(k.job)
  }

  /** What the program counter promises about the table. */
  ghost predicate PcOk(t: Table, pc: Pc, owner: string -> string) {
    match pc
    case Idle => true
    case Reaping(_, pending, jobs) => Owned(pending, owner) && Owned(jobs, owner)
    case Working(_, job, rest, stage) =>
      && job.owner == owner(job.id) && Owned(rest, owner)
      && match stage {
           case Check => true
           case Collect => NoActive(t, job.id)
           case Capacity => NoActive(t, job.id)
           case Record => NoActive(t, job.id)
           case Mark(w) => Key(job.id, w) in t && t[Key(job.id, w)].status == Queued
           case Submit(w) => Key(job.id, w) in t && t[Key(job.id, w)].status == Running
           case Await(w) => Key(job.id, w) in t && t[Key(job.id, w)].status == Running
           case Settle(w, st) => Key(job.id, w) in t && t[Key(job.id, w)].status == Running && !Active(st)
         }
  }

  ghost predicate Alive(s: State, e: Evaluator, owner: string -> string) {
    TableOk(s.runs, owner) && PcOk(s.runs, PcOf(s, e), owner)
  }

  /** One step's effect on a row: nothing, or one move along queued, running, terminal. */
  predicate Moves(a: Row, b: Row) {
    || a == b
    || (&& a.owner == b.owner && a.firedAt == b.firedAt
        && ((a.status == Queued && b.status in {Running, Error}) || (a.status == Running && !Active(b.status))))
  }

  function Rank(s: Status): nat {
    if s == Queued then 0 else if s == Running then 1 else 2
  }

  /** Many steps' effect on a row: its rank only rises, and a terminal row is frozen. */
  predicate Ages(a: Row, b: Row) {
    && a.owner == b.owner && a.firedAt == b.firedAt
    && Rank(a.status) <= Rank(b.status)
    && (!Active(a.status) ==> a == b)
  }

  lemma NextOk(t: Table, now: int, todo: seq<Job>, owner: string -> string)
    requires Owned(todo, owner)
    ensures PcOk(t, Next(now, todo), owner)
  {
  }

  ghost predicate AllMove(t: Table, u: Table) {
    forall k | k in t :: k in u && Moves(t[k], u[k])
  }

  lemma InsertKeepsTable(t: Table, k: Key, r: Row, owner: string -> string)
    requires TableOk(t, owner) && r.owner == owner(k.job) && NoActive(t, k.job)
    ensures TableOk(Insert(t, k, r), owner) && AllMove(t, Insert(t, k, r))
  {
  }

  lemma UpdateKeepsTable(
    t: Table, k: Key, status: Status, sentAt: Option<int>, error: Option<string>, owner: string -> string)
    requires TableOk(t, owner) && k in t
    requires (t[k].status == Queued && status == Running) || (t[k].status == Running && !Active(status))
    ensures var u := Update(t, k, status, sentAt, error);
            TableOk(u, owner) && AllMove(t, u) && u[k].status == status
  {
  }

  /** The invariant and the moves, for the state and program counter a step ends in. */
  ghost predicate StaysAlive(t: Table, u: Table, pc: Pc, owner: string -> string) {
    TableOk(u, owner) && AllMove(t, u) && PcOk(u, pc, owner)
  }

  lemma RecordStaysAlive(t: Table, pc: Pc, w: int, fault: Fault, owner: string -> string)
    requires TableOk(t, owner) && pc.Working? && pc.stage.Record? && PcOk(t, pc, owner)
    ensures var k := Key(pc.job.id, w);
            var u := Committed(fault, t, Insert(t, k, NewRow(pc.job, pc.now)));
            && StaysAlive(t, u, Next(pc.now, pc.rest), owner)
            && (fault == Fine && k !in t ==> StaysAlive(t, u, pc.(stage := Mark(w)), owner))
  {
    var (k, r) := (Key(pc.job.id, w), NewRow(pc.job, pc.now));
    InsertKeepsTable(t, k, r, owner);
    NextOk(Committed(fault, t, Insert(t, k, r)), pc.now, pc.rest, owner);
  }

  lemma UpdateStaysAlive(
    t: Table, pc: Pc, w: int, st: Status, sentAt: Option<int>, error: Option<string>, fault: Fault,
    owner: string -> string)
    requires TableOk(t, owner) && pc.Working? && PcOk(t, pc, owner)
    requires (pc.stage == Mark(w) && st == Running) || pc.stage == Settle(w, st)
    ensures var u := Committed(fault, t, Update(t, Key(pc.job.id, w), st, sentAt, error));
            && StaysAlive(t, u, Next(pc.now, pc.rest), owner)
            && (pc.stage.Mark? && fault == Fine ==> StaysAlive(t, u, pc.(stage := Submit(w)), owner))
  {
    UpdateKeepsTable(t, Key(pc.job.id, w), st, sentAt, error, owner);
    NextOk(Committed(fault, t, Update(t, Key(pc.job.id, w), st, sentAt, error)), pc.now, pc.rest, owner);
  }

  lemma CheckPasses(t: Table, pc: Pc, owner: string -> string)
    requires TableOk(t, owner) && pc.Working? && PcOk(t, pc, owner)
    requires !HasActive(t, pc.job.owner, pc.job.id)
    ensures NoActive(t, pc.job.id)
  {
  }

  lemma WorkKeepsAlive(c: Config, s: State, e: Evaluator, a: Action, owner: string -> string)
    requires ValidConfig(c) && Alive(s, e, owner) && PcOf(s, e).Working?
    requires WorkStep(c, s, e, PcOf(s, e), a).Some?
    ensures var s' := WorkStep(c, s, e, PcOf(s, e), a).value;
            StaysAlive(s.runs, s'.runs, PcOf(s', e), owner)
  {
    var pc := PcOf(s, e);
    NextOk(s.runs, pc.now, pc.rest, owner);
    match pc.stage {
      case Check =>
        if !HasActive(s.runs, pc.job.owner, pc.job.id) { CheckPasses(s.runs, pc, owner); }
      case Record =>
        if a.RecordRun? { RecordStaysAlive(s.runs, pc, Window(c, pc.job, pc.now).value, a.fault, owner); }
      case Mark(w) =>
        UpdateStaysAlive(s.runs, pc, w, Running, None, None, a.fault, owner);
      case Settle(w, st) =>
        UpdateStaysAlive(s.runs, pc, w, st, if st == Sent then Some(pc.now) else None, SettleError(st), a.fault, owner);
      case _ =>
    }
  }

  lemma ReapKeepsAlive(c: Config, s: State, e: Evaluator, a: Action, owner: string -> string)
    requires ValidConfig(c) && Alive(s, e, owner) && PcOf(s, e).Reaping?
    requires ReapStep(c, s, e, PcOf(s, e), a).Some?
    ensures var s' := ReapStep(c, s, e, PcOf(s, e), a).value;
            StaysAlive(s.runs, s'.runs, PcOf(s', e), owner)
  {
    var pc := PcOf(s, e);
    NextOk(s.runs, pc.now, pc.jobs, owner);
    if a.ReapOne? {
      var (j, cutoff) := (pc.pending[0], pc.now - c.reaperTimeout);
      assert AllMove(s.runs, Reap(s.runs, j.owner, j.id, cutoff));
    }
  }

  /** One step keeps the invariant and moves every row at most one place along its lifecycle. */
  lemma StepKeepsAlive(c: Config, s: State, e: Evaluator, a: Action, owner: string -> string)
    requires ValidConfig(c) && Alive(s, e, owner) && Step(c, s, e, a).Some?
    requires a.Begin? ==> Owned(a.jobs, owner)
    ensures var s' := Step(c, s, e, a).value;
            StaysAlive(s.runs, s'.runs, PcOf(s', e), owner)
  {
    if !a.Crash? && !a.Begin? {
      if PcOf(s, e).Reaping? {
        ReapKeepsAlive(c, s, e, a, owner);
      } else {
        WorkKeepsAlive(c, s, e, a, owner);
      }
    }
  }

  /** Over every run of one evaluator, with crashes and restarts: a job never has two in-flight
      rows, no row disappears, ranks only rise and terminal rows never change. It holds between
      any two points of a run, because it holds from every state that satisfies the invariant. */
  lemma {:induction false} RowsOnlyAge(c: Config, s: State, e: Evaluator, trace: Trace, owner: string -> string)
    requires ValidConfig(c) && Alive(s, e, owner) && Solo(trace, e, owner) && Run(c, s, trace).Some?
    ensures var s' := Run(c, s, trace).value;
            && Alive(s', e, owner)
            && (forall k | k in s.runs :: k in s'.runs && Ages(s.runs[k], s'.runs[k]))
    decreases |trace|
  {
    if trace != [] {
      StepKeepsAlive(c, s, e, trace[0].1, owner);
      var s1 := Step(c, s, e, trace[0].1).value;
      RowsOnlyAge(c, s1, e, trace[1..], owner);
    }
  }

  // ----- Terminal rows without the rule

  /** The row that a mark or a final update of evaluator `e` would write, and where. */
  function Written(s: State, e: Evaluator, a: Action): Option<(Key, Row)> {
    var pc := PcOf(s, e);
    if !pc.Working? then None
    else if a.MarkRunning? && pc.stage.Mark? && Key(pc.job.id, pc.stage.window) in s.runs then
      var k := Key(pc.job.id, pc.stage.window);
      Some((k, s.runs[k].(status := Running, sentAt := None, error := None)))
    else if a.SettleRun? && pc.stage.Settle? && Key(pc.job.id, pc.stage.window) in s.runs then
      var (k, st) := (Key(pc.job.id, pc.stage.window), pc.stage.status);
      Some((k, s.runs[k].(status := st, sentAt := if st == Sent then Some(pc.now) else None, error := SettleError(st))))
    else None
  }

  /** A committed mark or final update that finds other values in row `k`. */
  predicate Overwrites(s: State, e: Evaluator, a: Action, k: Key)
    requires k in s.runs
  {
    var w := Written(s, e, a);
    w.Some? && w.value.0 == k && w.value.1 != s.runs[k] && a.fault != RaisedBefore
  }

  /** With any number of evaluators, a step changes a terminal row if and only if it is a committed
      mark or final update of that row with other values: inserts and reaps never do. */
  lemma TerminalRowChangesIff(c: Config, s: State, e: Evaluator, a: Action, k: Key)
    requires ValidConfig(c) && Step(c, s, e, a).Some?
    requires k in s.runs && !Active(s.runs[k].status)
    ensures var s' := Step(c, s, e, a).value;
            (k !in s'.runs || s'.runs[k] != s.runs[k]) <==> Overwrites(s, e, a, k)
  {
  }

  function LateTail(later: int, j: Job): Trace {
    [(1, Resolve(Returned(true))), (2, Begin(later, [j])), (2, ReapOne(Fine))]
  }

  /** The tick of evaluator 1 up to a returned send, and then the sweep of evaluator 2. */
  function LateSend(now: int, later: int, j: Job): Trace {
    TickDispatch(1, now, j) + LateTail(later, j)
  }

  /** The state after that: the row is an error, and the first evaluator still holds its result. */
  function LateState(c: Config, now: int, later: int, j: Job, w: int): State {
    var k := Key(j.id, w);
    State(map[k := NewRow(j, now).(status := Error, error := Some(REAPED))],
          map[1 := Working(now, j, [], Settle(w, Sent)), 2 := Reaping(later, [], [j])], [k])
  }

  lemma LateTailRuns(c: Config, j: Job, now: int, later: int, w: int)
    requires ValidConfig(c) && later - c.reaperTimeout > now
    ensures var k := Key(j.id, w);
            var row := NewRow(j, now).(status := Running);
            var sent := State(map[k := row], map[1 := Working(now, j, [], Await(w))], [k]);
            Run(c, sent, LateTail(later, j)) == Some(LateState(c, now, later, j, w))
  {
    var k := Key(j.id, w);
    var row := NewRow(j, now).(status := Running);
    var (await, settle) := (Working(now, j, [], Await(w)), Working(now, j, [], Settle(w, Sent)));
    var s1 := State(map[k := row], map[1 := await], [k]);
    var s2 := State(map[k := row], map[1 := settle], [k]);
    var s3 := State(map[k := row], map[1 := settle, 2 := Reaping(later, [j], [j])], [k]);
    var s4 := LateState(c, now, later, j, w);
    assert Step(c, s1, 1, Resolve(Returned(true))) == Some(s2) by {
      assert s1.pcs[1 := settle] == s2.pcs;
    }
    assert Step(c, s2, 2, Begin(later, [j])) == Some(s3) by {
      assert s2.pcs[2 := Reaping(later, [j], [j])] == s3.pcs;
    }
    assert Step(c, s3, 2, ReapOne(Fine)) == Some(s4) by {
      assert Reap(s3.runs, j.owner, j.id, later - c.reaperTimeout) == s4.runs;
      assert [j][1..] == [];
      assert s3.pcs[2 := Reaping(later, [], [j])] == s4.pcs;
    }
    ThreeSteps(c, s1, 1, Resolve(Returned(true)), s2, 2, Begin(later, [j]), s3, 2, ReapOne(Fine), s4);
  }

  lemma LateSendRuns(c: Config, j: Job, now: int, later: int, w: int)
    requires ValidConfig(c) && Window(c, j, now) == Some(w) && later - c.reaperTimeout > now
    ensures Run(c, Start(map[]), LateSend(now, later, j)) == Some(LateState(c, now, later, j, w))
  {
    var k := Key(j.id, w);
    var sent := State(map[k := NewRow(j, now).(status := Running)], map[1 := Working(now, j, [], Await(w))], [k]);
    LoneJobDispatched(c, Start(map[]), 1, now, j);
    var r := Run(c, Start(map[]), TickDispatch(1, now, j)).value;
    assert r.runs == sent.runs && r.pcs == sent.pcs && r.sends == sent.sends;
    RunAppend(c, Start(map[]), TickDispatch(1, now, j), LateTail(later, j));
    LateTailRuns(c, j, now, later, w);
  }

  /** The rule of one evaluator is needed, for every job whose window can be computed: while the first
      evaluator is about to settle a send that outlived the timeout, the sweep of a second makes the
      row terminal, and the late update then changes it. The run starts from an empty table. */
  lemma SecondEvaluatorBreaksIt(c: Config, j: Job, now: int, later: int)
    requires ValidConfig(c) && Window(c, j, now).Some? && later - c.reaperTimeout > now
    ensures var k := Key(j.id, Window(c, j, now).value);
            var mid := Run(c, Start(map[]), LateSend(now, later, j));
            && mid.Some? && k in mid.value.runs && mid.value.runs[k].status == Error
            && Overwrites(mid.value, 1, SettleRun(Fine), k)
            && var end := Run(c, Start(map[]), LateSend(now, later, j) + [(1, SettleRun(Fine))]);
               end.Some? && k in end.value.runs && end.value.runs[k].status == Sent
  {
    var w := Window(c, j, now).value;
    var mid := LateState(c, now, later, j, w);
    LateSendRuns(c, j, now, later, w);
    RunAppend(c, Start(map[]), LateSend(now, later, j), [(1, SettleRun(Fine))]);
    RunOne(c, mid, 1, SettleRun(Fine));
  }

  // ----- The reaper

  /** The calls of a sweep, call `i` ending as `faults(i)` says. */
  function Sweep(e: Evaluator, n: nat, faults: nat -> Fault): Trace {
    if n == 0 then [] else Sweep(e, n - 1, faults) + [(e, ReapOne(faults(n - 1)))]
  }

  lemma {:induction false} SweepReaps(
    c: Config, s: State, e: Evaluator, now: int, jobs: seq<Job>, n: nat, faults: nat -> Fault)
    requires ValidConfig(c) && PcOf(s, e) == Reaping(now, jobs, jobs) && n <= |jobs|
    ensures Run(c, s, Sweep(e, n, faults)) ==
              Some(At(s.(runs := ReapAll(s.runs, jobs[..n], faults, now - c.reaperTimeout)), e,
                      Reaping(now, jobs[n..], jobs)))
  {
    if n == 0 {
      assert s.pcs[e := Reaping(now, jobs, jobs)] == s.pcs;
    } else {
      SweepReaps(c, s, e, now, jobs, n - 1, faults);
      var s1 := Run(c, s, Sweep(e, n - 1, faults)).value;
      RunAppend(c, s, Sweep(e, n - 1, faults), [(e, ReapOne(faults(n - 1)))]);
      RunOne(c, s1, e, ReapOne(faults(n - 1)));
      assert jobs[n - 1..][0] == jobs[n - 1] && jobs[n - 1..][1..] == jobs[n..] && jobs[..n][..n - 1] == jobs[..n - 1];
      AtTwice(s.(runs := ReapAll(s.runs, jobs[..n], faults, now - c.reaperTimeout)), e,
              Reaping(now, jobs[n - 1..], jobs), Reaping(now, jobs[n..], jobs));
    }
  }

  /** Some call of the sweep committed, for the row's job and owner. */
  ghost predicate CalledFor(k: Key, r: Row, jobs: seq<Job>, faults: nat -> Fault) {
    exists i | 0 <= i < |jobs| :: faults(i) != RaisedBefore && jobs[i].id == k.job && jobs[i].owner == r.owner
  }

  /** The row is in flight, was fired before the cutoff, and was called for. */
  ghost predicate Reached(k: Key, r: Row, jobs: seq<Job>, faults: nat -> Fault, firedBefore: int) {
    r.status in {Queued, Running} && r.firedAt < firedBefore && CalledFor(k, r, jobs, faults)
  }

  /** The sweep turns exactly the in-flight rows of the called jobs that were fired before the cutoff
      into errors. */
  lemma {:induction false} ReapAllMeaning(t: Table, jobs: seq<Job>, faults: nat -> Fault, firedBefore: int)
    ensures var u := ReapAll(t, jobs, faults, firedBefore);
            && u.Keys == t.Keys
            && forall k | k in t ::
                 u[k] == if Reached(k, t[k], jobs, faults, firedBefore)
                         then t[k].(status := Error, error := Some(REAPED)) else t[k]
  {
    if jobs != [] {
      var n := |jobs| - 1;
      var before := ReapAll(t, jobs[..n], faults, firedBefore);
      ReapAllMeaning(t, jobs[..n], faults, firedBefore);
      forall k | k in t
        ensures CalledFor(k, t[k], jobs, faults) <==>
                CalledFor(k, t[k], jobs[..n], faults)
                || (faults(n) != RaisedBefore && jobs[n].id == k.job && jobs[n].owner == t[k].owner)
      {
        if i :| 0 <= i < |jobs| && faults(i) != RaisedBefore && jobs[i].id == k.job && jobs[i].owner == t[k].owner {
          assert i < n ==> jobs[..n][i] == jobs[i];
        }
        if i :| 0 <= i < n && faults(i) != RaisedBefore
                && jobs[..n][i].id == k.job && jobs[..n][i].owner == t[k].owner {
          assert jobs[i] == jobs[..n][i];
        }
      }
    }
  }

  /** A sweep leaves every row fired within the timeout as it was, whoever fired it. */
  lemma YoungRowStays(c: Config, t: Table, jobs: seq<Job>, faults: nat -> Fault, now: int, k: Key)
    requires k in t && now - t[k].firedAt <= c.reaperTimeout
    ensures var u := ReapAll(t, jobs, faults, now - c.reaperTimeout);
            k in u && u[k] == t[k]
  {
    ReapAllMeaning(t, jobs, faults, now - c.reaperTimeout);
  }

  /** A tick up to the start of Plan B. */
  function ReapTick(e: Evaluator, now: int, jobs: seq<Job>, faults: nat -> Fault): Trace {
    [(e, Begin(now, jobs))] + Sweep(e, |jobs|, faults) + [(e, StartPlanB)]
  }

  lemma ReapTickRuns(c: Config, s: State, e: Evaluator, now: int, jobs: seq<Job>, faults: nat -> Fault)
    requires ValidConfig(c) && PcOf(s, e).Idle?
    ensures Run(c, s, ReapTick(e, now, jobs, faults))
            == Some(At(s.(runs := ReapAll(s.runs, jobs, faults, now - c.reaperTimeout)), e, Next(now, jobs)))
  {
    var (b, w, p) := ([(e, Begin(now, jobs))], Sweep(e, |jobs|, faults), [(e, StartPlanB)]);
    var s1 := At(s, e, Reaping(now, jobs, jobs));
    RunOne(c, s, e, Begin(now, jobs));
    SweepReaps(c, s1, e, now, jobs, |jobs|, faults);
    assert jobs[..|jobs|] == jobs && jobs[|jobs|..] == [];
    var fin := s.(runs := ReapAll(s.runs, jobs, faults, now - c.reaperTimeout));
    AtTwice(fin, e, Reaping(now, jobs, jobs), Reaping(now, [], jobs));
    AtTwice(fin, e, Reaping(now, [], jobs), Next(now, jobs));
    RunAppend(c, s, b, w);
    RunAppend(c, s, b + w, p);
    RunOne(c, At(fin, e, Reaping(now, [], jobs)), e, StartPlanB);
  }

  /** Row `k` became terminal and the job has no row in flight. */
  ghost predicate Recovered(u: Table, k: Key) {
    k in u && u[k].status == Error && NoActive(u, k.job)
  }

  /** The sweep makes a committed reap call for the job of `k`. */
  predicate Swept(jobs: seq<Job>, faults: nat -> Fault, id: string) {
    exists i | 0 <= i < |jobs| :: jobs[i].id == id && faults(i) != RaisedBefore
  }

  lemma SweptIsReached(
    jobs: seq<Job>, faults: nat -> Fault, firedBefore: int, owner: string -> string, k: Key, r: Row)
    requires Owned(jobs, owner) && r.owner == owner(k.job) && Active(r.status) && r.firedAt < firedBefore
    ensures Swept(jobs, faults, k.job) <==> Reached(k, r, jobs, faults, firedBefore)
  {
    if Swept(jobs, faults, k.job) {
      var i :| 0 <= i < |jobs| && jobs[i].id == k.job && faults(i) != RaisedBefore;
      assert jobs[i] in jobs && jobs[i].owner == r.owner;
    }
  }

  lemma ReapAllRecovers(
    t: Table, jobs: seq<Job>, faults: nat -> Fault, firedBefore: int, owner: string -> string, k: Key)
    requires TableOk(t, owner) && Owned(jobs, owner)
    requires k in t && Active(t[k].status) && t[k].firedAt < firedBefore
    ensures Recovered(ReapAll(t, jobs, faults, firedBefore), k) <==> Swept(jobs, faults, k.job)
  {
    ReapAllMeaning(t, jobs, faults, firedBefore);
    SweptIsReached(jobs, faults, firedBefore, owner, k, t[k]);
    var u := ReapAll(t, jobs, faults, firedBefore);
    forall l | l in u && l.job == k.job && l != k ensures !Active(u[l].status) {
      assert !Active(t[l].status);
    }
  }

  lemma SweepRecovers(t: Table, jobs: seq<Job>, faults: nat -> Fault, firedBefore: int, owner: string -> string, k: Key)
    requires TableOk(t, owner) && Owned(jobs, owner)
    requires k in t && Active(t[k].status) && t[k].firedAt < firedBefore
    ensures var u := ReapAll(t, jobs, faults, firedBefore);
            u.Keys == t.Keys && (Recovered(u, k) <==> Swept(jobs, faults, k.job))
  {
    ReapAllMeaning(t, jobs, faults, firedBefore);
    ReapAllRecovers(t, jobs, faults, firedBefore, owner, k);
  }

  /** A tick that lists a job more than the timeout after a stranded row was fired makes that row
      terminal before Plan B looks at the job, if and only if a reap call for that job commits: no
      failing call for another job prevents it. The row stays, so its window stays consumed, and the
      job is no longer blocked. */
  lemma StrandedRowIsReaped(
    c: Config, s: State, e: Evaluator, owner: string -> string, now: int, jobs: seq<Job>, faults: nat -> Fault, k: Key)
    requires ValidConfig(c) && Alive(s, e, owner) && PcOf(s, e).Idle? && Owned(jobs, owner)
    requires k in s.runs && Active(s.runs[k].status) && s.runs[k].firedAt < now - c.reaperTimeout
    ensures var s' := Run(c, s, ReapTick(e, now, jobs, faults));
            && s'.Some? && s'.value.runs.Keys == s.runs.Keys && PcOf(s'.value, e) == Next(now, jobs)
            && (Recovered(s'.value.runs, k) <==> Swept(jobs, faults, k.job))
  {
    SweepRecovers(s.runs, jobs, faults, now - c.reaperTimeout, owner, k);
    ReapTickRuns(c, s, e, now, jobs, faults);
    assert Run(c, s, ReapTick(e, now, jobs, faults)).value.runs == ReapAll(s.runs, jobs, faults, now - c.reaperTimeout);
  }
}
