/**
 Digest delivery as a transition system. Any number of evaluators share the `job_runs` table; each
 runs ticks: a reaper sweep, then Plan B, whose every store call is one atomic step. A store call
 may raise with or without its effect, an evaluator may crash anywhere and lose its program
 counter, as a tick that raises does, a send that timed out goes on in its thread, and one whose
 submission raised may have been queued all the same and run later. `sends` records every dispatch of
 `sender.send`, in order.
 */
module Delivery {
  import opened Wrappers
  import opened Jobs
  import opened JobRuns
  import opened Scheduler
  import Smtp

  datatype Config = Config(grids: Grids, reaperTimeout: int)

  ghost predicate ValidConfig(c: Config) {
    ValidGrids(c.grids)
  }

  // ----- States

  /** Where Plan B stands with one job. */
  datatype Stage =
    | Check
    | Collect
    | Capacity
    | Record
    | Mark(window: int)
    | Submit(window: int)
    | Await(window: int)
    | Settle(window: int, status: Status)

  datatype Pc =
    | Idle
    | Reaping(now: int, pending: seq<Job>, jobs: seq<Job>)
    | Working(now: int, job: Job, rest: seq<Job>, stage: Stage)

  type Evaluator = nat

  datatype State = State(runs: Table, pcs: map<Evaluator, Pc>, sends: seq<Key>)

  function PcOf(s: State, e: Evaluator): Pc {
    if e in s.pcs then s.pcs[e] else Idle
  }

  function Next(now: int, todo: seq<Job>): Pc {
    if todo == [] then Idle else Working(now, todo[0], todo[1..], Check)
  }

  // ----- Steps

  datatype SendOutcome = Returned(sent: bool) | RaisedOrTimedOut

  datatype Action =
    | Begin(now: int, jobs: seq<Job>)
    | ReapOne(fault: Fault)
    | StartPlanB
    | CheckActive(fault: Fault)
    | CollectDigest(found: bool)
    | CheckCapacity(free: bool)
    | RecordRun(fault: Fault)
    | MarkRunning(fault: Fault)
    | SubmitSend
    | SubmitRaises(queued: bool)
    | Resolve(outcome: SendOutcome)
    | SettleRun(fault: Fault)
    | Raise
    | Crash

  function At(s: State, e: Evaluator, pc: Pc): State {
    s.(pcs := s.pcs[e := pc])
  }

  function FinalStatus(o: SendOutcome): Status {
    match o
    case Returned(sent) => if sent then Sent else SkippedNoEmail
    case RaisedOrTimedOut => Error
  }

  function SettleError(st: Status): Option<string> {
    if st == Error then Some("send failed") else None
  }

  function NewRow(job: Job, now: int): Row {
    Row(job.owner, now, None, Queued, None)
  }

  /** The window of a job, `None` when computing it raises. */
  function Window(c: Config, job: Job, now: int): Option<int>
    requires ValidConfig(c)
  {
    match c.grids(job.schedule)
    case None => None
    case Some(g) => Some(ComputeWindowStart(g, now))
  }

  /** The window is the occurrence of the job's own schedule that the tick has reached last. */
  lemma WindowMeaning(c: Config, job: Job, now: int, g: Grid, n: int)
    requires ValidConfig(c)
    ensures Window(c, job, now).None? <==> c.grids(job.schedule).None?
    ensures c.grids(job.schedule) == Some(g) && g(n) <= now < g(n + 1) ==> Window(c, job, now) == Some(g(n))
  {
    if c.grids(job.schedule) == Some(g) && g(n) <= now < g(n + 1) {
      WindowIsLatestOccurrence(g, now, n);
      WindowIsLatestOccurrence(g, now, n + 1);
    }
  }

  /** The state after evaluator `e` takes step `a`, if it can. */
  function Step(c: Config, s: State, e: Evaluator, a: Action): Option<State>
    requires ValidConfig(c)
  {
    var pc := PcOf(s, e);
    if a.Crash? then Some(At(s, e, Idle))
    else if a.Begin? then
      if pc.Idle? then Some(At(s, e, Reaping(a.now, a.jobs, a.jobs))) else None
    else if pc.Reaping? then ReapStep(c, s, e, pc, a)
    else if pc.Working? then WorkStep(c, s, e, pc, a)
    else None
  }

  function ReapStep(c: Config, s: State, e: Evaluator, pc: Pc, a: Action): Option<State>
    requires pc.Reaping?
  {
    if a.ReapOne? && pc.pending != [] then
      var j := pc.pending[0];
      var runs := Committed(a.fault, s.runs, Reap(s.runs, j.owner, j.id, pc.now - c.reaperTimeout));
      Some(At(s.(runs := runs), e, pc.(pending := pc.pending[1..])))
    else if a.StartPlanB? && pc.pending == [] then Some(At(s, e, Next(pc.now, pc.jobs)))
    else None
  }

  function WorkStep(c: Config, s: State, e: Evaluator, pc: Pc, a: Action): Option<State>
    requires ValidConfig(c) && pc.Working?
  {
    var skip := Next(pc.now, pc.rest);
    match pc.stage
    case Check =>
      if !a.CheckActive? then None
      else if a.fault != Fine || HasActive(s.runs, pc.job.owner, pc.job.id) then Some(At(s, e, skip))
      else Some(At(s, e, pc.(stage := Collect)))
    case Collect =>
      if a.CollectDigest? then Some(At(s, e, if a.found then pc.(stage := Capacity) else skip))
      else if a.Raise? then Some(At(s, e, skip))
      else None
    case Capacity =>
      if a.CheckCapacity? then Some(At(s, e, if a.free then pc.(stage := Record) else skip)) else None
    case Record =>
      if a.Raise? then Some(At(s, e, skip))
      else if !a.RecordRun? || Window(c, pc.job, pc.now).None? then None
      else
        var w := Window(c, pc.job, pc.now).value;
        var k := Key(pc.job.id, w);
        var runs := Committed(a.fault, s.runs, Insert(s.runs, k, NewRow(pc.job, pc.now)));
        Some(At(s.(runs := runs), e, if a.fault == Fine && k !in s.runs then pc.(stage := Mark(w)) else skip))
    case Mark(w) =>
      if !a.MarkRunning? then None
      else
        var runs := Committed(a.fault, s.runs, Update(s.runs, Key(pc.job.id, w), Running, None, None));
        Some(At(s.(runs := runs), e, if a.fault == Fine then pc.(stage := Submit(w)) else skip))
    case Submit(w) =>
      if a.SubmitSend? then Some(At(s.(sends := s.sends + [Key(pc.job.id, w)]), e, pc.(stage := Await(w))))
      else if a.SubmitRaises? then
        var sends := if a.queued then s.sends + [Key(pc.job.id, w)] else s.sends;
        Some(At(s.(sends := sends), e, pc.(stage := Settle(w, Error))))
      else None
    case Await(w) =>
      if a.Resolve? then Some(At(s, e, pc.(stage := Settle(w, FinalStatus(a.outcome))))) else None
    case Settle(w, st) =>
      if !a.SettleRun? then None
      else
        var sentAt := if st == Sent then Some(pc.now) else None;
        var runs := Committed(a.fault, s.runs, Update(s.runs, Key(pc.job.id, w), st, sentAt, SettleError(st)));
        Some(At(s.(runs := runs), e, skip))
  }

  type Trace = seq<(Evaluator, Action)>

  function Run(c: Config, s: State, trace: Trace): Option<State>
    requires ValidConfig(c)
    decreases |trace|
  {
    if trace == [] then Some(s)
    else
      match Step(c, s, trace[0].0, trace[0].1)
      case None => None
      case Some(s') => Run(c, s', trace[1..])
  }

  lemma {:induction false} RunAppend(c: Config, s: State, a: Trace, b: Trace)
    requires ValidConfig(c) && Run(c, s, a).Some?
    ensures Run(c, s, a + b) == Run(c, Run(c, s, a).value, b)
    decreases |a|
  {
    if a == [] {
      assert a + b == b;
    } else {
      assert (a + b)[1..] == a[1..] + b;
      RunAppend(c, Step(c, s, a[0].0, a[0].1).value, a[1..], b);
    }
  }

  lemma RunOne(c: Config, s: State, e: Evaluator, a: Action)
    requires ValidConfig(c)
    ensures Run(c, s, [(e, a)]) == Step(c, s, e, a)
  {
    assert [(e, a)][1..] == [];
    var r := Step(c, s, e, a);
    assert r.Some? ==> Run(c, r.value, []) == r;
  }

  function Start(runs: Table): State {
    State(runs, map[], [])
  }

  /** The table after a sweep over `jobs`, call `i` ending as `faults(i)` says. */
  function ReapAll(t: Table, jobs: seq<Job>, faults: nat -> Fault, firedBefore: int): Table {
    if jobs == [] then t
    else
      var n := |jobs| - 1;
      var u := ReapAll(t, jobs[..n], faults, firedBefore);
      Committed(faults(n), u, Reap(u, jobs[n].owner, jobs[n].id, firedBefore))
  }

  // ----- A tick that sends

  function TickStart(e: Evaluator, now: int, j: Job): Trace {
    [(e, Begin(now, [j])), (e, ReapOne(Fine)), (e, StartPlanB)]
  }

  function Checks(e: Evaluator): Trace {
    [(e, CheckActive(Fine)), (e, CollectDigest(true)), (e, CheckCapacity(true))]
  }

  function Sending(e: Evaluator): Trace {
    [(e, RecordRun(Fine)), (e, MarkRunning(Fine)), (e, SubmitSend)]
  }

  /** A tick with one job, up to its dispatch. */
  function TickDispatch(e: Evaluator, now: int, j: Job): Trace {
    TickStart(e, now, j) + Checks(e) + Sending(e)
  }

  ghost predicate NoRows(t: Table, id: string) {
    forall k | k in t :: k.job != id
  }

  lemma ThreeSteps(c: Config, s0: State, e0: Evaluator, a0: Action, s1: State, e1: Evaluator, a1: Action,
                   s2: State, e2: Evaluator, a2: Action, s3: State)
    requires ValidConfig(c)
    requires Step(c, s0, e0, a0) == Some(s1) && Step(c, s1, e1, a1) == Some(s2) && Step(c, s2, e2, a2) == Some(s3)
    ensures Run(c, s0, [(e0, a0), (e1, a1), (e2, a2)]) == Some(s3)
  {
    RunOne(c, s0, e0, a0);
    RunOne(c, s1, e1, a1);
    RunOne(c, s2, e2, a2);
    RunAppend(c, s0, [(e0, a0)], [(e1, a1)]);
    RunAppend(c, s0, [(e0, a0)] + [(e1, a1)], [(e2, a2)]);
    assert [(e0, a0)] + [(e1, a1)] + [(e2, a2)] == [(e0, a0), (e1, a1), (e2, a2)];
  }

  lemma AtTwice(s: State, e: Evaluator, p: Pc, q: Pc)
    ensures At(At(s, e, p), e, q) == At(s, e, q)
  {
    assert s.pcs[e := p][e := q] == s.pcs[e := q];
  }

  lemma TickStarts(c: Config, s: State, e: Evaluator, now: int, j: Job)
    requires ValidConfig(c) && PcOf(s, e).Idle? && NoRows(s.runs, j.id)
    ensures Run(c, s, TickStart(e, now, j)) == Some(At(s, e, Working(now, j, [], Check)))
  {
    var (s1, s2) := (At(s, e, Reaping(now, [j], [j])), At(s, e, Reaping(now, [], [j])));
    assert Reap(s.runs, j.owner, j.id, now - c.reaperTimeout) == s.runs && [j][1..] == [];
    AtTwice(s, e, Reaping(now, [j], [j]), Reaping(now, [], [j]));
    AtTwice(s, e, Reaping(now, [], [j]), Working(now, j, [], Check));
    ThreeSteps(c, s, e, Begin(now, [j]), s1, e, ReapOne(Fine), s2, e, StartPlanB, At(s, e, Working(now, j, [], Check)));
  }

  lemma ChecksPass(c: Config, s: State, e: Evaluator, now: int, j: Job)
    requires ValidConfig(c) && PcOf(s, e) == Working(now, j, [], Check) && NoRows(s.runs, j.id)
    ensures Run(c, s, Checks(e)) == Some(At(s, e, Working(now, j, [], Record)))
  {
    var (p1, p2, p3) := (Working(now, j, [], Collect), Working(now, j, [], Capacity), Working(now, j, [], Record));
    AtTwice(s, e, p1, p2);
    AtTwice(s, e, p2, p3);
    ThreeSteps(c, s, e, CheckActive(Fine), At(s, e, p1), e, CollectDigest(true), At(s, e, p2), e, CheckCapacity(true),
               At(s, e, p3));
  }

  lemma RecordThenMark(c: Config, s: State, e: Evaluator, now: int, j: Job, w: int)
    requires ValidConfig(c) && PcOf(s, e) == Working(now, j, [], Record) && Key(j.id, w) !in s.runs
    requires Window(c, j, now) == Some(w)
    ensures var (k, r) := (Key(j.id, w), NewRow(j, now));
            var s1 := At(s.(runs := s.runs[k := r]), e, Working(now, j, [], Mark(w)));
            && Step(c, s, e, RecordRun(Fine)) == Some(s1)
            && Step(c, s1, e, MarkRunning(Fine)) ==
                 Some(At(s.(runs := s.runs[k := r.(status := Running)]), e, Working(now, j, [], Submit(w))))
  {
    var (k, r) := (Key(j.id, w), NewRow(j, now));
    var s1 := At(s.(runs := s.runs[k := r]), e, Working(now, j, [], Mark(w)));
    assert s1.runs[k := r.(status := Running)] == s.runs[k := r.(status := Running)];
    AtTwice(s.(runs := s.runs[k := r.(status := Running)]), e,
            Working(now, j, [], Mark(w)), Working(now, j, [], Submit(w)));
  }

  lemma SendingSends(c: Config, s: State, e: Evaluator, now: int, j: Job, w: int)
    requires ValidConfig(c) && PcOf(s, e) == Working(now, j, [], Record) && Key(j.id, w) !in s.runs
    requires Window(c, j, now) == Some(w)
    ensures Run(c, s, Sending(e)) ==
              Some(State(s.runs[Key(j.id, w) := NewRow(j, now).(status := Running)],
                         s.pcs[e := Working(now, j, [], Await(w))], s.sends + [Key(j.id, w)]))
  {
    var (k, r) := (Key(j.id, w), NewRow(j, now));
    var s1 := At(s.(runs := s.runs[k := r]), e, Working(now, j, [], Mark(w)));
    var runs := s.runs[k := r.(status := Running)];
    var s2 := At(s.(runs := runs), e, Working(now, j, [], Submit(w)));
    var s3 := At(s.(runs := runs, sends := s.sends + [k]), e, Working(now, j, [], Await(w)));
    RecordThenMark(c, s, e, now, j, w);
    AtTwice(s.(runs := runs, sends := s.sends + [k]), e, Working(now, j, [], Submit(w)), Working(now, j, [], Await(w)));
    ThreeSteps(c, s, e, RecordRun(Fine), s1, e, MarkRunning(Fine), s2, e, SubmitSend, s3);
  }

  /** A job without rows and with a readable schedule is dispatched by a tick that lists only it. */
  lemma LoneJobDispatched(c: Config, s: State, e: Evaluator, now: int, j: Job)
    requires ValidConfig(c) && PcOf(s, e).Idle? && NoRows(s.runs, j.id) && Window(c, j, now).Some?
    ensures var w := Window(c, j, now).value;
            var k := Key(j.id, w);
            Run(c, s, TickDispatch(e, now, j)) ==
              Some(State(s.runs[k := NewRow(j, now).(status := Running)], s.pcs[e := Working(now, j, [], Await(w))],
                         s.sends + [k]))
  {
    var w := Window(c, j, now).value;
    var s1 := At(s, e, Working(now, j, [], Check));
    var s2 := At(s, e, Working(now, j, [], Record));
    TickStarts(c, s, e, now, j);
    ChecksPass(c, s1, e, now, j);
    AtTwice(s, e, Working(now, j, [], Check), Working(now, j, [], Record));
    RunAppend(c, s, TickStart(e, now, j), Checks(e));
    SendingSends(c, s2, e, now, j, w);
    AtTwice(s, e, Working(now, j, [], Record), Working(now, j, [], Await(w)));
    RunAppend(c, s, TickStart(e, now, j) + Checks(e), Sending(e));
  }

  // ----- At most one dispatch per (job, window)

  /** The key an evaluator has won and not dispatched yet. */
  function Won(pc: Pc): Option<Key> {
    if pc.Working? && (pc.stage.Mark? || pc.stage.Submit?) then Some(Key(pc.job.id, pc.stage.window)) else None
  }

  /** The key an evaluator waits for or is about to settle after a dispatch. */
  function Dispatched(pc: Pc): Option<Key> {
    if pc.Working? && (pc.stage.Await? || (pc.stage.Settle? && pc.stage.status != Error))
    then Some(Key(pc.job.id, pc.stage.window)) else None
  }

  /** `base` holds the keys recorded before the run began. */
  ghost predicate Safe(s: State, base: set<Key>) {
    && (forall i, j :: 0 <= i < j < |s.sends| ==> s.sends[i] != s.sends[j])
    && (forall k | k in s.sends :: k in s.runs && k !in base)
    && base <= s.runs.Keys
    && (forall e | Won(PcOf(s, e)).Some? ::
          var k := Won(PcOf(s, e)).value; k in s.runs && k !in s.sends && k !in base)
    && (forall e, f | e != f && Won(PcOf(s, e)).Some? && Won(PcOf(s, f)).Some? ::
          Won(PcOf(s, e)).value != Won(PcOf(s, f)).value)
    && (forall e | Dispatched(PcOf(s, e)).Some? :: Dispatched(PcOf(s, e)).value in s.sends)
    && (forall k | k in s.runs && k !in base && Final(s.runs[k].status) :: k in s.sends)
  }

  predicate Final(st: Status) {
    st in {Sent, SkippedNoEmail}
  }

  /** A step of `e` that neither wins nor dispatches a key, and may drop the one it had. */
  ghost predicate Quiet(s: State, s': State, e: Evaluator) {
    && s'.pcs == s.pcs[e := PcOf(s', e)] && s'.sends == s.sends
    && s.runs.Keys <= s'.runs.Keys
    && (Won(PcOf(s', e)).Some? ==> Won(PcOf(s', e)) == Won(PcOf(s, e)))
    && (Dispatched(PcOf(s', e)).Some? ==> Dispatched(PcOf(s', e)) == Dispatched(PcOf(s, e)))
    && (forall k | k in s'.runs && Final(s'.runs[k].status) ::
          (k in s.runs && Final(s.runs[k].status)) || k in s.sends)
  }

  lemma QuietKeepsSafe(s: State, s': State, base: set<Key>, e: Evaluator)
    requires Safe(s, base) && Quiet(s, s', e)
    ensures Safe(s', base)
  {
    assert forall f | f != e :: PcOf(s', f) == PcOf(s, f);
  }

  lemma WinKeepsSafe(s: State, s': State, base: set<Key>, e: Evaluator, k: Key, r: Row)
    requires Safe(s, base) && k !in s.runs && !Final(r.status)
    requires s'.sends == s.sends && s'.runs == s.runs[k := r] && s'.pcs == s.pcs[e := PcOf(s', e)]
    requires Won(PcOf(s', e)) == Some(k) && Dispatched(PcOf(s', e)).None?
    ensures Safe(s', base)
  {
    assert forall f | f != e :: PcOf(s', f) == PcOf(s, f);
  }

  lemma DispatchKeepsSafe(s: State, s': State, base: set<Key>, e: Evaluator, k: Key)
    requires Safe(s, base) && Won(PcOf(s, e)) == Some(k)
    requires s'.sends == s.sends + [k] && s'.runs == s.runs && s'.pcs == s.pcs[e := PcOf(s', e)]
    requires Won(PcOf(s', e)).None? && Dispatched(PcOf(s', e)) in {None, Some(k)}
    ensures Safe(s', base)
  {
    assert forall f | f != e :: PcOf(s', f) == PcOf(s, f);
  }

  /** The action hands a send to the pool. */
  predicate Hands(a: Action) {
    a.SubmitSend? || (a.SubmitRaises? && a.queued)
  }

  lemma WorkIsQuiet(c: Config, s: State, e: Evaluator, a: Action)
    requires ValidConfig(c) && PcOf(s, e).Working? && WorkStep(c, s, e, PcOf(s, e), a).Some?
    requires Dispatched(PcOf(s, e)).Some? ==> Dispatched(PcOf(s, e)).value in s.sends
    requires !Hands(a)
    requires var pc' := PcOf(WorkStep(c, s, e, PcOf(s, e), a).value, e); !(pc'.Working? && pc'.stage.Mark?)
    ensures Quiet(s, WorkStep(c, s, e, PcOf(s, e), a).value, e)
  {
  }

  lemma ReapIsQuiet(c: Config, s: State, e: Evaluator, a: Action)
    requires PcOf(s, e).Reaping? && ReapStep(c, s, e, PcOf(s, e), a).Some?
    ensures Quiet(s, ReapStep(c, s, e, PcOf(s, e), a).value, e)
  {
  }

  lemma WorkKeepsSafe(c: Config, s: State, base: set<Key>, e: Evaluator, a: Action)
    requires ValidConfig(c) && Safe(s, base) && PcOf(s, e).Working? && WorkStep(c, s, e, PcOf(s, e), a).Some?
    ensures Safe(WorkStep(c, s, e, PcOf(s, e), a).value, base)
  {
    var pc, s' := PcOf(s, e), WorkStep(c, s, e, PcOf(s, e), a).value;
    var pc' := PcOf(s', e);
    if Hands(a) {
      DispatchKeepsSafe(s, s', base, e, Key(pc.job.id, pc.stage.window));
    } else if pc'.Working? && pc'.stage.Mark? {
      WinKeepsSafe(s, s', base, e, Key(pc.job.id, pc'.stage.window), NewRow(pc.job, pc.now));
    } else {
      WorkIsQuiet(c, s, e, a);
      QuietKeepsSafe(s, s', base, e);
    }
  }

  lemma StepKeepsSafe(c: Config, s: State, base: set<Key>, e: Evaluator, a: Action)
    requires ValidConfig(c) && Safe(s, base) && Step(c, s, e, a).Some?
    ensures Safe(Step(c, s, e, a).value, base)
  {
    var pc, s' := PcOf(s, e), Step(c, s, e, a).value;
    if a.Crash? || a.Begin? {
      QuietKeepsSafe(s, s', base, e);
    } else if pc.Reaping? {
      ReapIsQuiet(c, s, e, a);
      QuietKeepsSafe(s, s', base, e);
    } else {
      WorkKeepsSafe(c, s, base, e, a);
    }
  }

  lemma {:induction false} RunKeepsSafe(c: Config, s: State, base: set<Key>, trace: Trace)
    requires ValidConfig(c) && Safe(s, base) && Run(c, s, trace).Some?
    ensures Safe(Run(c, s, trace).value, base)
    decreases |trace|
  {
    if trace != [] {
      StepKeepsSafe(c, s, base, trace[0].0, trace[0].1);
      RunKeepsSafe(c, Step(c, s, trace[0].0, trace[0].1).value, base, trace[1..]);
    }
  }

  /** Over every interleaving of any number of evaluators, with crashes, raising store calls, reaps
      and orphaned sends: no (job, window) is dispatched twice, none that was already recorded is
      dispatched again, and a row says `sent` only for a dispatched window. */
  lemma AtMostOnceDispatch(c: Config, runs: Table, trace: Trace, i: nat, j: nat)
    requires ValidConfig(c) && Run(c, Start(runs), trace).Some?
    ensures var s := Run(c, Start(runs), trace).value;
            && (i < j < |s.sends| ==> s.sends[i] != s.sends[j])
            && (i < |s.sends| ==> s.sends[i] in s.runs && s.sends[i] !in runs)
            && (forall k | k in s.runs && k !in runs && s.runs[k].status == Sent :: k in s.sends)
  {
    RunKeepsSafe(c, Start(runs), runs.Keys, trace);
  }

  // ----- Each (job, window) has at most one accepted email

  /** One dispatched `send()` call: its settings, relay and clock, and how many of its attempts
      had begun when the process ended or the call returned. */
  datatype Call = Call(settings: Smtp.Settings, relay: nat -> Smtp.Relay, clock: nat -> real, begun: nat)

  ghost predicate ValidCall(call: Call) {
    Smtp.AllConforming(call.relay) && call.begun <= Smtp.Attempts(call.settings, call.relay, call.clock)
  }

  /** Messages accepted for `k` over all dispatched calls. */
  function AcceptedFor(k: Key, sends: seq<Key>, calls: nat -> Call): nat {
    if sends == [] then 0
    else
      var n := |sends| - 1;
      AcceptedFor(k, sends[..n], calls)
      + if sends[n] == k then Smtp.AcceptedCount(calls(n).relay, calls(n).begun) else 0
  }

  lemma {:induction false} NoneAcceptedUndispatched(k: Key, sends: seq<Key>, calls: nat -> Call)
    requires k !in sends
    ensures AcceptedFor(k, sends, calls) == 0
  {
    if sends != [] {
      NoneAcceptedUndispatched(k, sends[..|sends| - 1], calls);
    }
  }

  lemma {:induction false} OneDispatchOneEmail(k: Key, sends: seq<Key>, calls: nat -> Call)
    requires forall i, j :: 0 <= i < j < |sends| ==> sends[i] != sends[j]
    requires forall i: nat :: ValidCall(calls(i))
    ensures AcceptedFor(k, sends, calls) <= 1
  {
    if sends != [] {
      var n := |sends| - 1;
      if sends[n] == k {
        var call := calls(n);
        Smtp.AtMostOneAccepted(call.settings, call.relay, call.clock, call.begun);
        NoneAcceptedUndispatched(k, sends[..n], calls);
      } else {
        OneDispatchOneEmail(k, sends[..n], calls);
      }
    }
  }

  /** End to end: whatever the evaluators, the store and the relays do, at most one email is
      accepted for each (job, window). */
  lemma AtMostOneEmailPerWindow(c: Config, runs: Table, trace: Trace, calls: nat -> Call, k: Key)
    requires ValidConfig(c) && Run(c, Start(runs), trace).Some?
    requires forall i: nat :: ValidCall(calls(i))
    ensures AcceptedFor(k, Run(c, Start(runs), trace).value.sends, calls) <= 1
    ensures k in runs ==> AcceptedFor(k, Run(c, Start(runs), trace).value.sends, calls) == 0
  {
    RunKeepsSafe(c, Start(runs), runs.Keys, trace);
    var sends := Run(c, Start(runs), trace).value.sends;
    OneDispatchOneEmail(k, sends, calls);
    if k in runs {
      NoneAcceptedUndispatched(k, sends, calls);
    }
  }

  // ----- Dispatches never outrun the cron occurrences

  /** Every tick of the run happens in [from, to] and lists job `id` with one schedule. */
  ghost predicate TicksWithin(trace: Trace, id: string, schedule: Schedule, from: int, to: int) {
    forall i | 0 <= i < |trace| && trace[i].1.Begin? ::
      from <= trace[i].1.now <= to && ScheduledAs(trace[i].1.jobs, id, schedule)
  }

  ghost predicate ScheduledAs(jobs: seq<Job>, id: string, schedule: Schedule) {
    forall j | j in jobs && j.id == id :: j.schedule == schedule
  }

  ghost predicate ValidGrid(grid: Option<Grid>) {
    grid.Some? ==> StrictlyIncreasing(grid.value)
  }

  /** `w` is the window of some instant in [from, to]. */
  ghost predicate Passed(grid: Option<Grid>, from: int, to: int, w: int)
    requires ValidGrid(grid)
  {
    grid.Some? && exists k :: WindowIndex(grid.value, from) <= k <= WindowIndex(grid.value, to) && grid.value(k) == w
  }

  ghost predicate PcWithin(g: Option<Grid>, pc: Pc, id: string, schedule: Schedule, from: int, to: int)
    requires ValidGrid(g)
  {
    match pc
    case Idle => true
    case Reaping(now, _, jobs) => from <= now <= to && ScheduledAs(jobs, id, schedule)
    case Working(now, job, rest, stage) =>
      && from <= now <= to && ScheduledAs([job] + rest, id, schedule)
      && (job.id == id && (stage.Mark? || stage.Submit?) ==> Passed(g, from, to, stage.window))
  }

  ghost predicate OnGrid(c: Config, s: State, id: string, schedule: Schedule, from: int, to: int)
    requires ValidConfig(c)
  {
    var g := c.grids(schedule);
    && (forall e :: PcWithin(g, PcOf(s, e), id, schedule, from, to))
    && (forall k | k in s.sends && k.job == id :: Passed(g, from, to, k.window))
  }

  lemma NextWithin(g: Option<Grid>, now: int, todo: seq<Job>, id: string, schedule: Schedule, from: int, to: int)
    requires ValidGrid(g) && from <= now <= to && ScheduledAs(todo, id, schedule)
    ensures PcWithin(g, Next(now, todo), id, schedule, from, to)
  {
    if todo != [] {
      assert [todo[0]] + todo[1..] == todo;
    }
  }

  lemma CurrentWindowPassed(g: Grid, from: int, now: int, to: int)
    requires StrictlyIncreasing(g) && from <= now <= to
    ensures Passed(Some(g), from, to, ComputeWindowStart(g, now))
  {
    WindowIndexMonotone(g, from, now);
    WindowIndexMonotone(g, now, to);
  }

  /** Where a step of Plan B leads: on to the next job, or to another stage of this one. A window is
      computed once, when the run is recorded, and kept. */
  ghost predicate Follows(c: Config, pc: Pc, pc': Pc)
    requires ValidConfig(c) && pc.Working?
  {
    || pc' == Next(pc.now, pc.rest)
    || (&& pc'.Working? && pc' == pc.(stage := pc'.stage)
        && (pc'.stage.Mark? ==> pc.stage.Record? && Window(c, pc.job, pc.now) == Some(pc'.stage.window))
        && (pc'.stage.Submit? ==> pc.stage == Mark(pc'.stage.window)))
  }

  lemma WorkFollows(c: Config, s: State, e: Evaluator, pc: Pc, a: Action)
    requires ValidConfig(c) && pc.Working? && WorkStep(c, s, e, pc, a).Some?
    ensures Follows(c, pc, PcOf(WorkStep(c, s, e, pc, a).value, e))
  {
  }

  lemma FollowsWithin(c: Config, id: string, schedule: Schedule, from: int, to: int, pc: Pc, pc': Pc)
    requires ValidConfig(c) && pc.Working? && Follows(c, pc, pc')
    requires PcWithin(c.grids(schedule), pc, id, schedule, from, to)
    ensures PcWithin(c.grids(schedule), pc', id, schedule, from, to)
  {
    assert pc.job in [pc.job] + pc.rest;
    assert forall j | j in pc.rest :: j in [pc.job] + pc.rest;
    NextWithin(c.grids(schedule), pc.now, pc.rest, id, schedule, from, to);
    if pc.job.id == id && c.grids(schedule).Some? {
      CurrentWindowPassed(c.grids(schedule).value, from, pc.now, to);
    }
  }

  lemma OwnPcWithin(
    c: Config, s: State, id: string, schedule: Schedule, from: int, to: int, e: Evaluator, a: Action)
    requires ValidConfig(c) && Step(c, s, e, a).Some?
    requires PcWithin(c.grids(schedule), PcOf(s, e), id, schedule, from, to)
    requires a.Begin? ==> from <= a.now <= to && ScheduledAs(a.jobs, id, schedule)
    ensures PcWithin(c.grids(schedule), PcOf(Step(c, s, e, a).value, e), id, schedule, from, to)
  {
    var pc := PcOf(s, e);
    if pc.Reaping? {
      NextWithin(c.grids(schedule), pc.now, pc.jobs, id, schedule, from, to);
    } else if pc.Working? && !a.Crash? {
      WorkFollows(c, s, e, pc, a);
      FollowsWithin(c, id, schedule, from, to, pc, PcOf(Step(c, s, e, a).value, e));
    }
  }

  /** A step moves only its evaluator, and adds at most one dispatch, of the window it had won. */
  ghost predicate OneSendAtMost(s: State, s': State, e: Evaluator) {
    && s'.pcs == s.pcs[e := PcOf(s', e)]
    && var pc := PcOf(s, e);
       || s'.sends == s.sends
       || (pc.Working? && pc.stage.Submit? && s'.sends == s.sends + [Key(pc.job.id, pc.stage.window)])
  }

  lemma SendsGrow(c: Config, s: State, e: Evaluator, a: Action)
    requires ValidConfig(c) && Step(c, s, e, a).Some?
    ensures OneSendAtMost(s, Step(c, s, e, a).value, e)
  {
  }

  lemma GridKept(c: Config, s: State, s': State, id: string, schedule: Schedule, from: int, to: int, e: Evaluator)
    requires ValidConfig(c) && OnGrid(c, s, id, schedule, from, to) && OneSendAtMost(s, s', e)
    requires PcWithin(c.grids(schedule), PcOf(s', e), id, schedule, from, to)
    ensures OnGrid(c, s', id, schedule, from, to)
  {
    assert forall f | f != e :: PcOf(s', f) == PcOf(s, f);
    assert PcWithin(c.grids(schedule), PcOf(s, e), id, schedule, from, to);
  }

  lemma StepKeepsOnGrid(
    c: Config, s: State, id: string, schedule: Schedule, from: int, to: int, e: Evaluator, a: Action)
    requires ValidConfig(c) && OnGrid(c, s, id, schedule, from, to) && Step(c, s, e, a).Some?
    requires a.Begin? ==> from <= a.now <= to && ScheduledAs(a.jobs, id, schedule)
    ensures OnGrid(c, Step(c, s, e, a).value, id, schedule, from, to)
  {
    OwnPcWithin(c, s, id, schedule, from, to, e, a);
    SendsGrow(c, s, e, a);
    GridKept(c, s, Step(c, s, e, a).value, id, schedule, from, to, e);
  }

  lemma {:induction false} RunKeepsOnGrid(
    c: Config, s: State, id: string, schedule: Schedule, from: int, to: int, trace: Trace)
    requires ValidConfig(c) && OnGrid(c, s, id, schedule, from, to) && Run(c, s, trace).Some?
    requires TicksWithin(trace, id, schedule, from, to)
    ensures OnGrid(c, Run(c, s, trace).value, id, schedule, from, to)
    decreases |trace|
  {
    if trace != [] {
      StepKeepsOnGrid(c, s, id, schedule, from, to, trace[0].0, trace[0].1);
      RunKeepsOnGrid(c, Step(c, s, trace[0].0, trace[0].1).value, id, schedule, from, to, trace[1..]);
    }
  }

  function SendsOf(sends: seq<Key>, id: string): nat {
    if sends == [] then 0
    else SendsOf(sends[..|sends| - 1], id) + if sends[|sends| - 1].job == id then 1 else 0
  }

  /** Distinct dispatches with windows among the grid points lo..hi number at most hi - lo + 1. */
  lemma {:induction false} CountOnGrid(g: Grid, sends: seq<Key>, id: string, indices: set<int>)
    requires StrictlyIncreasing(g)
    requires forall i, j :: 0 <= i < j < |sends| ==> sends[i] != sends[j]
    requires forall k | k in sends && k.job == id :: exists n :: n in indices && g(n) == k.window
    ensures SendsOf(sends, id) <= |indices|
  {
    if sends != [] {
      var m := |sends| - 1;
      if sends[m].job == id {
        assert sends[m] in sends;
        var n :| n in indices && g(n) == sends[m].window;
        forall k | k in sends[..m] && k.job == id ensures exists n' :: n' in indices - {n} && g(n') == k.window {
          var n' :| n' in indices && g(n') == k.window;
          assert k != sends[m];
          assert n' in indices - {n};
        }
        CountOnGrid(g, sends[..m], id, indices - {n});
      } else {
        CountOnGrid(g, sends[..m], id, indices);
      }
    }
  }

  function Interval(lo: int, hi: int): (r: set<int>)
    requires lo <= hi + 1
    ensures forall n :: n in r <==> lo <= n <= hi
    ensures |r| == hi - lo + 1
    decreases hi - lo + 1
  {
    if lo <= hi then Interval(lo, hi - 1) + {hi} else {}
  }

  lemma PassedCount(g: Grid, sends: seq<Key>, id: string, from: int, to: int)
    requires StrictlyIncreasing(g) && from <= to
    requires forall i, j :: 0 <= i < j < |sends| ==> sends[i] != sends[j]
    requires forall k | k in sends && k.job == id :: Passed(Some(g), from, to, k.window)
    ensures SendsOf(sends, id) <= WindowIndex(g, to) - WindowIndex(g, from) + 1
  {
    var (lo, hi) := (WindowIndex(g, from), WindowIndex(g, to));
    WindowIndexMonotone(g, from, to);
    var indices := Interval(lo, hi);
    forall k | k in sends && k.job == id ensures exists n :: n in indices && g(n) == k.window {
      var n :| lo <= n <= hi && g(n) == k.window;
      assert n in indices;
    }
    CountOnGrid(g, sends, id, indices);
  }

  lemma {:induction false} NoneSent(sends: seq<Key>, id: string)
    requires forall k | k in sends :: k.job != id
    ensures SendsOf(sends, id) == 0
  {
    if sends != [] {
      assert sends[|sends| - 1] in sends;
      NoneSent(sends[..|sends| - 1], id);
    }
  }

  /** With a fixed schedule, the dispatches of a job during ticks in [from, to] are at most the
      window current at `from` plus the occurrences after it up to `to`; there is none of a job
      whose schedule cannot be read. */
  lemma DispatchesWithinOccurrences(
    c: Config, runs: Table, trace: Trace, id: string, schedule: Schedule, from: int, to: int)
    requires ValidConfig(c) && Run(c, Start(runs), trace).Some?
    requires TicksWithin(trace, id, schedule, from, to) && from <= to
    ensures SendsOf(Run(c, Start(runs), trace).value.sends, id) <=
            match c.grids(schedule) {
              case None => 0
              case Some(g) => WindowIndex(g, to) - WindowIndex(g, from) + 1
            }
  {
    RunKeepsSafe(c, Start(runs), runs.Keys, trace);
    RunKeepsOnGrid(c, Start(runs), id, schedule, from, to, trace);
    var sends := Run(c, Start(runs), trace).value.sends;
    if c.grids(schedule).Some? {
      PassedCount(c.grids(schedule).value, sends, id, from, to);
    } else {
      NoneSent(sends, id);
    }
  }
}
