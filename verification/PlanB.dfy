/**
 A tick, Plan B in it and the evaluator loop as they run: the per-job body with its two exception
 handlers, the summary counters, the stores and the send executor. Each method returns the trace of
 Delivery steps it performed, so that everything proved about that transition system holds of this
 code.
 */
module PlanB {
  import opened Wrappers
  import opened Jobs
  import opened JobRuns
  import opened Scheduler
  import opened Delivery
  import opened SendExecutor
  import PlanA

  datatype Counter = Notified | Skipped | Errors

  datatype Tally = Tally(notified: nat, skipped: nat, errors: nat) {
    function Bump(c: Counter): Tally {
      match c
      case Notified => this.(notified := notified + 1)
      case Skipped => this.(skipped := skipped + 1)
      case Errors => this.(errors := errors + 1)
    }
  }

  class Summary {
    var notified: nat
    var skipped: nat
    var errors: nat
    var scraped: nat

    constructor ()
      ensures notified == skipped == errors == scraped == 0
    {
      notified, skipped, errors, scraped := 0, 0, 0, 0;
    }

    ghost function Counts(): Tally
      reads this
    {
      Tally(notified, skipped, errors)
    }
  }

  datatype Collected = CollectRaises | Empty | Found

  /** How a send ends, as Plan B sees it. Submitting it may fail, before or after its work item was
      queued, and a sender may itself raise `TimeoutError`. */
  datatype SendEnd =
    | SubmitFails(queued: bool)
    | Returns(sent: bool)
    | Raises
    | RaisesTimeout
    | TimesOutQueued
    | TimesOutRunning

  /** What the environment does while one job is processed; `history(i)` says whether reading the
      history of the job's source `i` raises. */
  datatype JobEnv = JobEnv(
    ended: set<Future>, check: Fault, history: nat -> bool,
    record: Fault, mark: Fault, send: SendEnd, endedLater: set<Future>, settle: Fault)

  function CollectedFor(scrapes: seq<PlanA.Scrape>, job: Job, env: JobEnv): Collected {
    if PlanA.CollectRaises(job, env.history) then CollectRaises
    else if PlanA.Collect(scrapes, job.owner, job.sources) == [] then Empty
    else Found
  }

  /** What a job's processing depends on: the tables, the executor being full, the job's window. */
  datatype View = View(runs: Table, scrapes: seq<PlanA.Scrape>, full: bool, window: Option<int>)

  /** The counter for a job whose run was recorded by this tick. */
  function DeliveryCounter(env: JobEnv): Counter {
    if env.mark != Fine || !env.send.Returns? || env.settle != Fine then Errors
    else if env.send.sent then Notified
    else Skipped
  }

  /** The counter for one job: `notified` only for a send that returned true and was settled,
      `skipped` for a job in flight, an empty digest, a full executor, a window already recorded or
      an owner without email, and `errors` for everything that raised. The window is computed for an
      empty digest too, for the warning, so a schedule that cannot be read is an error there as well,
      but not for a job that was skipped before. */
  function JobCounter(v: View, job: Job, env: JobEnv): Counter {
    if env.check != Fine then Errors
    else if HasActive(v.runs, job.owner, job.id) then Skipped
    else
      match CollectedFor(v.scrapes, job, env)
      case CollectRaises => Errors
      case Empty => if v.window.None? then Errors else Skipped
      case Found =>
        if v.full then Skipped
        else if v.window.None? || env.record != Fine then Errors
        else if Key(job.id, v.window.value) in v.runs then Skipped
        else DeliveryCounter(env)
  }

  /** Some record in the history is of one of the job's own sources. */
  ghost predicate HasRecord(scrapes: seq<PlanA.Scrape>, job: Job) {
    exists r | r in scrapes :: r.key.owner == job.owner && r.key.source in job.sources
  }

  /** No store call of the job's processing raises. */
  ghost predicate Smooth(job: Job, env: JobEnv) {
    && env.check == Fine && env.record == Fine && env.mark == Fine && env.settle == Fine
    && forall i | 0 <= i < |job.sources| :: !env.history(i)
  }

  /** Nothing stands between the job and its send: it has something to report, no run in flight, room in
      the pool, and a window that has no row yet. */
  ghost predicate Due(v: View, job: Job, env: JobEnv) {
    && Smooth(job, env) && HasRecord(v.scrapes, job) && !v.full
    && (forall k | k in v.runs && k.job == job.id && v.runs[k].owner == job.owner ::
          v.runs[k].status !in {Queued, Running})
    && v.window.Some? && Key(job.id, v.window.value) !in v.runs
  }

  /** What a due job's row says in the end. */
  function EndRow(job: Job, now: int, send: SendEnd): Row {
    match send
    case Returns(true) => Row(job.owner, now, Some(now), Sent, None)
    case Returns(false) => Row(job.owner, now, None, SkippedNoEmail, None)
    case _ => Row(job.owner, now, None, Error, Some("send failed"))
  }

  lemma DueIsAdmitted(v: View, job: Job, env: JobEnv)
    ensures !HasRecord(v.scrapes, job) ==> !Admitted(v, job, env) && JobCounter(v, job, env) != Notified
    ensures JobCounter(v, job, env) == Notified ==> Dispatches(v, job, env) && env.send == Returns(true)
    ensures Due(v, job, env) ==>
              && Admitted(v, job, env) && First(v, job, env)
              && JobCounter(v, job, env) == DeliveryCounter(env)
  {
    PlanA.DigestIffRecord(v.scrapes, job.owner, job.sources);
  }

  /** The job passes every check that comes before the recording of a run. */
  predicate Admitted(v: View, job: Job, env: JobEnv) {
    && env.check == Fine && !HasActive(v.runs, job.owner, job.id)
    && CollectedFor(v.scrapes, job, env) == Found && !v.full
  }

  /** The job is the first to fire its window. */
  predicate First(v: View, job: Job, env: JobEnv) {
    v.window.Some? && env.record == Fine && Key(job.id, v.window.value) !in v.runs
  }

  /** The job's digest is handed to the send pool. */
  predicate Dispatches(v: View, job: Job, env: JobEnv) {
    Admitted(v, job, env) && First(v, job, env) && env.mark == Fine && env.send != SubmitFails(false)
  }

  /** The decision table by its reasons, in the order in which they are met. */
  lemma CounterMeaning(v: View, job: Job, env: JobEnv)
    ensures env.check != Fine ==> JobCounter(v, job, env) == Errors
    ensures env.check == Fine ==>
              var active := exists k | k in v.runs ::
                              k.job == job.id && v.runs[k].owner == job.owner && v.runs[k].status in {Queued, Running};
              var unread := exists i | 0 <= i < |job.sources| :: env.history(i);
              && (active ==> JobCounter(v, job, env) == Skipped)
              && (!active && unread ==> JobCounter(v, job, env) == Errors)
              && (!active && !unread && !HasRecord(v.scrapes, job) ==>
                  JobCounter(v, job, env) == if v.window.None? then Errors else Skipped)
              && (!active && !unread && HasRecord(v.scrapes, job) ==>
                  JobCounter(v, job, env) ==
                    if v.full then Skipped
                    else if v.window.None? || env.record != Fine then Errors
                    else if Key(job.id, v.window.value) in v.runs then Skipped
                    else if env.mark != Fine || env.settle != Fine then Errors
                    else match env.send
                         case Returns(sent) => if sent then Notified else Skipped
                         case _ => Errors)
  {
    PlanA.DigestIffRecord(v.scrapes, job.owner, job.sources);
  }

  // ----- The Delivery steps of one evaluator working on one job

  datatype Context = Context(c: Config, start: State, e: Evaluator, now: int, job: Job, rest: seq<Job>)

  /** `stage` is `None` when the evaluator has moved on to the next job. */
  ghost predicate Reached(x: Context, trace: Trace, runs: Table, stage: Option<Stage>, sends: seq<Key>) {
    && ValidConfig(x.c)
    && var pc := if stage.None? then Next(x.now, x.rest) else Working(x.now, x.job, x.rest, stage.value);
       Run(x.c, x.start, trace) == Some(State(runs, map[x.e := pc], sends))
  }

  lemma Take(x: Context, trace: Trace, runs: Table, stage: Stage, sends: seq<Key>, a: Action)
    requires Reached(x, trace, runs, Some(stage), sends)
    ensures var pc := Working(x.now, x.job, x.rest, stage);
            var s := State(runs, map[x.e := pc], sends);
            Run(x.c, x.start, trace + [(x.e, a)]) == Step(x.c, s, x.e, a)
    ensures forall pc: Pc, pc': Pc :: map[x.e := pc][x.e := pc'] == map[x.e := pc']
  {
    RunAppend(x.c, x.start, trace, [(x.e, a)]);
    RunOne(x.c, Run(x.c, x.start, trace).value, x.e, a);
  }

  lemma TakeCheck(x: Context, trace: Trace, runs: Table, sends: seq<Key>, fault: Fault)
    requires Reached(x, trace, runs, Some(Check), sends)
    ensures var blocked := fault != Fine || HasActive(runs, x.job.owner, x.job.id);
            Reached(x, trace + [(x.e, CheckActive(fault))], runs, if blocked then None else Some(Collect), sends)
  {
    Take(x, trace, runs, Check, sends, CheckActive(fault));
  }

  lemma TakeCollect(x: Context, trace: Trace, runs: Table, sends: seq<Key>, found: bool)
    requires Reached(x, trace, runs, Some(Collect), sends)
    ensures Reached(x, trace + [(x.e, CollectDigest(found))], runs, if found then Some(Capacity) else None, sends)
  {
    Take(x, trace, runs, Collect, sends, CollectDigest(found));
  }

  lemma TakeCapacity(x: Context, trace: Trace, runs: Table, sends: seq<Key>, free: bool)
    requires Reached(x, trace, runs, Some(Capacity), sends)
    ensures Reached(x, trace + [(x.e, CheckCapacity(free))], runs, if free then Some(Record) else None, sends)
  {
    Take(x, trace, runs, Capacity, sends, CheckCapacity(free));
  }

  lemma TakeRaise(x: Context, trace: Trace, runs: Table, stage: Stage, sends: seq<Key>)
    requires Reached(x, trace, runs, Some(stage), sends) && stage in {Collect, Record}
    ensures Reached(x, trace + [(x.e, Raise)], runs, None, sends)
  {
    Take(x, trace, runs, stage, sends, Raise);
  }

  lemma TakeRecord(x: Context, trace: Trace, runs: Table, sends: seq<Key>, fault: Fault)
    requires Reached(x, trace, runs, Some(Record), sends) && Window(x.c, x.job, x.now).Some?
    ensures var w := Window(x.c, x.job, x.now).value;
            var k := Key(x.job.id, w);
            Reached(x, trace + [(x.e, RecordRun(fault))],
                    Committed(fault, runs, Insert(runs, k, NewRow(x.job, x.now))),
                    if fault == Fine && k !in runs then Some(Mark(w)) else None, sends)
  {
    Take(x, trace, runs, Record, sends, RecordRun(fault));
  }

  lemma TakeMark(x: Context, trace: Trace, runs: Table, w: int, sends: seq<Key>, fault: Fault)
    requires Reached(x, trace, runs, Some(Mark(w)), sends)
    ensures Reached(x, trace + [(x.e, MarkRunning(fault))],
                    Committed(fault, runs, Update(runs, Key(x.job.id, w), Running, None, None)),
                    if fault == Fine then Some(Submit(w)) else None, sends)
  {
    Take(x, trace, runs, Mark(w), sends, MarkRunning(fault));
  }

  lemma TakeSubmit(x: Context, trace: Trace, runs: Table, w: int, sends: seq<Key>)
    requires Reached(x, trace, runs, Some(Submit(w)), sends)
    ensures Reached(x, trace + [(x.e, SubmitSend)], runs, Some(Await(w)), sends + [Key(x.job.id, w)])
    ensures forall queued :: Reached(x, trace + [(x.e, SubmitRaises(queued))], runs, Some(Settle(w, Error)),
                                     if queued then sends + [Key(x.job.id, w)] else sends)
  {
    Take(x, trace, runs, Submit(w), sends, SubmitSend);
    Take(x, trace, runs, Submit(w), sends, SubmitRaises(true));
    Take(x, trace, runs, Submit(w), sends, SubmitRaises(false));
  }

  lemma TakeResolve(x: Context, trace: Trace, runs: Table, w: int, sends: seq<Key>, o: SendOutcome)
    requires Reached(x, trace, runs, Some(Await(w)), sends)
    ensures Reached(x, trace + [(x.e, Resolve(o))], runs, Some(Settle(w, FinalStatus(o))), sends)
  {
    Take(x, trace, runs, Await(w), sends, Resolve(o));
  }

  lemma TakeSettle(x: Context, trace: Trace, runs: Table, w: int, st: Status, sends: seq<Key>, fault: Fault)
    requires Reached(x, trace, runs, Some(Settle(w, st)), sends)
    ensures var sentAt := if st == Sent then Some(x.now) else None;
            Reached(x, trace + [(x.e, SettleRun(fault))],
                    Committed(fault, runs, Update(runs, Key(x.job.id, w), st, sentAt, SettleError(st))), None, sends)
  {
    Take(x, trace, runs, Settle(w, st), sends, SettleRun(fault));
  }

  // ----- The loop body

  /** Dispatch and await: the executor's side of one send, with the rotation after a timeout. */
  method Dispatch(executor: RotatingSendExecutor, end: SendEnd, endedLater: set<Future>) returns (o: SendOutcome)
    requires executor.Valid() && executor.awaited.None? && !end.SubmitFails?
    requires |executor.retired| < executor.maxLiveOrphans
    modifies executor
    ensures executor.Valid() && executor.awaited.None?
    ensures o == if end.Returns? then Returned(end.sent) else RaisedOrTimedOut
    ensures executor.strays == old(executor.strays)
    ensures executor.current == old(executor.current) + if end.Returns? || end.Raises? then 0 else 1
  {
    var f := executor.Submit();
    executor.Progress(endedLater - {f});
    o := RaisedOrTimedOut;
    match end {
      case Returns(sent) =>
        executor.Finish(f);
        o := Returned(sent);
      case Raises =>
        executor.Finish(f);
      case TimesOutRunning =>
        executor.Rotate(Some(f));
      case RaisesTimeout =>
        executor.Progress({f});
        executor.Rotate(Some(f));
      case TimesOutQueued =>
        executor.Progress({f});
        executor.Rotate(None);
    }
  }

  /** The final update of the row and of the summary. */
  method SettleOne(store: StateStore, summary: Summary, now: int, job: Job, window: int, status: Status, fault: Fault,
                   ghost x: Context, ghost before: Trace, ghost sends: seq<Key>)
    returns (ghost trace: Trace)
    requires x.now == now && x.job == job && !Active(status)
    requires Reached(x, before, store.jobRuns, Some(Settle(window, status)), sends)
    modifies store, summary
    ensures summary.Counts() == old(summary.Counts()).Bump(
              if fault != Fine || status == Error then Errors else if status == Sent then Notified else Skipped)
    ensures summary.scraped == old(summary.scraped)
    ensures store.jobRuns == Committed(fault, old(store.jobRuns),
              Update(old(store.jobRuns), Key(job.id, window), status, if status == Sent then Some(now) else None,
                     SettleError(status)))
    ensures Reached(x, trace, store.jobRuns, None, sends)
  {
    TakeSettle(x, before, store.jobRuns, window, status, sends, fault);
    trace := before + [(x.e, SettleRun(fault))];
    var sentAt := if status == Sent then Some(now) else None;
    var settled := store.UpdateJobRun(Key(job.id, window), status, sentAt, SettleError(status), fault);
    if settled.None? || status == Error {
      summary.errors := summary.errors + 1;
    } else if status == Sent {
      summary.notified := summary.notified + 1;
    } else {
      summary.skipped := summary.skipped + 1;
    }
  }

  /** The status that the end of a send leads to. */
  function EndStatus(send: SendEnd): Status {
    match send
    case Returns(true) => Sent
    case Returns(false) => SkippedNoEmail
    case _ => Error
  }

  /** Submitting the send, and awaiting it unless that raised. */
  method SubmitAndAwait(executor: RotatingSendExecutor, env: JobEnv, ghost window: int,
                        ghost x: Context, ghost before: Trace, ghost runs: Table, ghost sends: seq<Key>)
    returns (ghost trace: Trace, status: Status, handed: bool)
    requires executor.Valid() && executor.awaited.None? && |executor.retired| < executor.maxLiveOrphans
    requires Reached(x, before, runs, Some(Submit(window)), sends)
    modifies executor
    ensures executor.Valid() && executor.awaited.None?
    ensures status == EndStatus(env.send)
    ensures handed <==> env.send != SubmitFails(false)
    ensures env.send != SubmitFails(true) ==> executor.strays == old(executor.strays)
    ensures Reached(x, trace, runs, Some(Settle(window, status)),
                    if handed then sends + [Key(x.job.id, window)] else sends)
  {
    TakeSubmit(x, before, runs, window, sends);
    if env.send.SubmitFails? {
      executor.SubmitRaises(env.send.queued);
      trace, status, handed := before + [(x.e, SubmitRaises(env.send.queued))], Error, env.send.queued;
    } else {
      trace := before + [(x.e, SubmitSend)];
      var o := Dispatch(executor, env.send, env.endedLater);
      TakeResolve(x, trace, runs, window, sends + [Key(x.job.id, window)], o);
      trace := trace + [(x.e, Resolve(o))];
      status, handed := FinalStatus(o), true;
    }
  }

  /** A new row after the mark and the final update. */
  lemma EndRowIs(runs: Table, k: Key, job: Job, now: int, send: SendEnd)
    requires k in runs && runs[k] == NewRow(job, now)
    ensures var status := EndStatus(send);
            Update(Update(runs, k, Running, None, None), k, status,
                   if status == Sent then Some(now) else None, SettleError(status))
              == runs[k := EndRow(job, now, send)]
  {
  }

  /** From the recorded row to the settled one: mark running, dispatch, await, final update. */
  method Deliver(store: StateStore, executor: RotatingSendExecutor, summary: Summary,
                 now: int, job: Job, window: int, env: JobEnv,
                 ghost x: Context, ghost before: Trace, ghost sends: seq<Key>)
    returns (ghost trace: Trace, dispatched: bool)
    requires x.now == now && x.job == job
    requires executor.Valid() && executor.awaited.None? && |executor.retired| < executor.maxLiveOrphans
    requires Key(job.id, window) in store.jobRuns && store.jobRuns[Key(job.id, window)] == NewRow(job, now)
    requires Reached(x, before, store.jobRuns, Some(Mark(window)), sends)
    modifies store, summary, executor
    ensures executor.Valid() && executor.awaited.None?
    ensures summary.Counts() == old(summary.Counts()).Bump(DeliveryCounter(env))
    ensures summary.scraped == old(summary.scraped)
    ensures dispatched <==> env.mark == Fine && env.send != SubmitFails(false)
    ensures env.mark == Fine && env.settle == Fine ==>
              store.jobRuns == old(store.jobRuns)[Key(job.id, window) := EndRow(job, now, env.send)]
    ensures env.send != SubmitFails(true) ==> executor.strays == old(executor.strays)
    ensures Reached(x, trace, store.jobRuns, None, if dispatched then sends + [Key(job.id, window)] else sends)
  {
    var k := Key(job.id, window);
    dispatched := false;
    EndRowIs(store.jobRuns, k, job, now, env.send);
    TakeMark(x, before, store.jobRuns, window, sends, env.mark);
    trace := before + [(x.e, MarkRunning(env.mark))];
    var marked := store.UpdateJobRun(k, Running, None, None, env.mark);
    if marked.None? {
      summary.errors := summary.errors + 1;
      return;
    }
    var status;
    trace, status, dispatched := SubmitAndAwait(executor, env, window, x, trace, store.jobRuns, sends);
    trace := SettleOne(store, summary, now, job, window, status, env.settle, x, trace,
                       if dispatched then sends + [k] else sends);
  }

  /** The live orphans counted by the capacity check of this job. */
  ghost function LiveOrphans(executor: RotatingSendExecutor, env: JobEnv): nat
    reads executor
  {
    |Live(executor.retired, Ended(executor.done, env.ended, executor.submitted))|
  }

  ghost function Seen(c: Config, store: StateStore, scrapes: PlanA.ScrapeStore, executor: RotatingSendExecutor,
                      now: int, job: Job, env: JobEnv): View
    requires ValidConfig(c)
    reads store, scrapes, executor
  {
    View(store.jobRuns, scrapes.scrapes, LiveOrphans(executor, env) >= executor.maxLiveOrphans, Window(c, job, now))
  }

  /** The checks that read the stores: no active run, and a digest to send. */
  method CheckAndCollect(c: Config, store: StateStore, scrapes: PlanA.ScrapeStore, summary: Summary,
                         now: int, job: Job, env: JobEnv,
                         ghost v: View, ghost x: Context, ghost before: Trace, ghost sends: seq<Key>)
    returns (ghost trace: Trace, found: bool)
    requires x.c == c && x.now == now && x.job == job && Reached(x, before, store.jobRuns, Some(Check), sends)
    requires v.runs == store.jobRuns && v.scrapes == scrapes.scrapes && v.window == Window(c, job, now)
    modifies summary
    ensures found <==> env.check == Fine && !HasActive(v.runs, job.owner, job.id)
                       && CollectedFor(v.scrapes, job, env) == Found
    ensures summary.Counts() == if found then old(summary.Counts())
                                else old(summary.Counts()).Bump(JobCounter(v, job, env))
    ensures summary.scraped == old(summary.scraped)
    ensures Reached(x, trace, store.jobRuns, if found then Some(Capacity) else None, sends)
  {
    found := false;
    TakeCheck(x, before, store.jobRuns, sends, env.check);
    trace := before + [(x.e, CheckActive(env.check))];
    var active := store.HasActiveJobRun(job.owner, job.id, env.check);
    if active.None? {
      summary.errors := summary.errors + 1;
      return;
    }
    if active.value {
      summary.skipped := summary.skipped + 1;
      return;
    }
    var records := scrapes.CollectJobDigest(job, env.history);
    if records.None? || (records.value == [] && Window(c, job, now).None?) {
      TakeRaise(x, trace, store.jobRuns, Collect, sends);
      trace := trace + [(x.e, Raise)];
      summary.errors := summary.errors + 1;
      return;
    }
    found := records.value != [];
    TakeCollect(x, trace, store.jobRuns, sends, found);
    trace := trace + [(x.e, CollectDigest(found))];
    if !found {
      summary.skipped := summary.skipped + 1;
    }
  }

  /** The check for room in the executor, the last one before a run is recorded. */
  method CheckRoom(executor: RotatingSendExecutor, summary: Summary, job: Job, env: JobEnv,
                   ghost v: View, ghost runs: Table, ghost x: Context, ghost before: Trace, ghost sends: seq<Key>)
    returns (ghost trace: Trace, free: bool)
    requires executor.Valid() && executor.awaited.None?
    requires v.full <==> LiveOrphans(executor, env) >= executor.maxLiveOrphans
    requires Reached(x, before, runs, Some(Capacity), sends)
    requires !v.full ==> Admitted(v, job, env)
    requires v.full ==> JobCounter(v, job, env) == Skipped
    modifies summary, executor
    ensures executor.Valid() && executor.awaited.None?
    ensures free <==> Admitted(v, job, env)
    ensures free ==> |executor.retired| < executor.maxLiveOrphans
    ensures summary.Counts() == if free then old(summary.Counts())
                                else old(summary.Counts()).Bump(JobCounter(v, job, env))
    ensures executor.strays == old(executor.strays) && summary.scraped == old(summary.scraped)
    ensures Reached(x, trace, runs, if free then Some(Record) else None, sends)
  {
    executor.Progress(env.ended);
    free := executor.CanSubmit();
    TakeCapacity(x, before, runs, sends, free);
    trace := before + [(x.e, CheckCapacity(free))];
    if !free {
      summary.skipped := summary.skipped + 1;
    }
  }

  /** All checks before a run is recorded. */
  method Screen(c: Config, store: StateStore, scrapes: PlanA.ScrapeStore, executor: RotatingSendExecutor,
                summary: Summary, now: int, job: Job, env: JobEnv,
                ghost x: Context, ghost before: Trace, ghost sends: seq<Key>)
    returns (ghost trace: Trace, admitted: bool)
    requires x.c == c && x.now == now && x.job == job && executor.Valid() && executor.awaited.None?
    requires Reached(x, before, store.jobRuns, Some(Check), sends)
    modifies summary, executor
    ensures executor.Valid() && executor.awaited.None?
    ensures var v := old(Seen(c, store, scrapes, executor, now, job, env));
            && (admitted <==> Admitted(v, job, env))
            && summary.Counts() == if admitted then old(summary.Counts())
                                   else old(summary.Counts()).Bump(JobCounter(v, job, env))
    ensures admitted ==> |executor.retired| < executor.maxLiveOrphans
    ensures executor.strays == old(executor.strays)
    ensures summary.scraped == old(summary.scraped)
    ensures Reached(x, trace, store.jobRuns, if admitted then Some(Record) else None, sends)
  {
    ghost var v := Seen(c, store, scrapes, executor, now, job, env);
    trace, admitted := CheckAndCollect(c, store, scrapes, summary, now, job, env, v, x, before, sends);
    if admitted {
      trace, admitted := CheckRoom(executor, summary, job, env, v, store.jobRuns, x, trace, sends);
    }
  }

  /** Recording the run: whether this tick is the first to fire the window. */
  method RecordFirst(c: Config, store: StateStore, summary: Summary, now: int, job: Job, env: JobEnv,
                     ghost v: View, ghost x: Context, ghost before: Trace, ghost sends: seq<Key>)
    returns (ghost trace: Trace, first: Option<int>)
    requires x.c == c && x.now == now && x.job == job && Reached(x, before, store.jobRuns, Some(Record), sends)
    requires v.window == Window(c, job, now) && v.runs == store.jobRuns && Admitted(v, job, env)
    modifies store, summary
    ensures first.Some? <==> First(v, job, env)
    ensures first.Some? ==> first == v.window
    ensures first.Some? ==> store.jobRuns == old(store.jobRuns)[Key(job.id, first.value) := NewRow(job, now)]
    ensures summary.Counts() == if first.Some? then old(summary.Counts())
                                else old(summary.Counts()).Bump(JobCounter(v, job, env))
    ensures summary.scraped == old(summary.scraped)
    ensures v.window.None? ==> store.jobRuns == v.runs
    ensures Reached(x, trace, store.jobRuns, if first.Some? then Some(Mark(first.value)) else None, sends)
  {
    first := None;
    var window := Window(c, job, now);
    if window.None? {
      TakeRaise(x, before, store.jobRuns, Record, sends);
      trace := before + [(x.e, Raise)];
      summary.errors := summary.errors + 1;
      return;
    }
    TakeRecord(x, before, store.jobRuns, sends, env.record);
    trace := before + [(x.e, RecordRun(env.record))];
    var recorded := store.RecordJobRun(Key(job.id, window.value), NewRow(job, now), env.record);
    if recorded.None? {
      summary.errors := summary.errors + 1;
    } else if !recorded.value {
      summary.skipped := summary.skipped + 1;
    } else {
      first := window;
    }
  }

  /** The loop body of Plan B for one job, in terms of the decision table. */
  method ProcessJob(c: Config, store: StateStore, scrapes: PlanA.ScrapeStore, executor: RotatingSendExecutor,
                    summary: Summary, now: int, job: Job, env: JobEnv,
                    ghost x: Context, ghost before: Trace, ghost sends: seq<Key>)
    returns (ghost trace: Trace, ghost sends': seq<Key>)
    requires x.c == c && x.now == now && x.job == job
    requires executor.Valid() && executor.awaited.None?
    requires Reached(x, before, store.jobRuns, Some(Check), sends)
    modifies store, summary, executor
    ensures executor.Valid() && executor.awaited.None?
    ensures var v := old(Seen(c, store, scrapes, executor, now, job, env));
            && summary.Counts() == old(summary.Counts()).Bump(JobCounter(v, job, env))
            && sends' == (if Dispatches(v, job, env) then sends + [Key(job.id, v.window.value)] else sends)
            && (!Admitted(v, job, env) || v.window.None? ==> store.jobRuns == v.runs)
            && (Admitted(v, job, env) && First(v, job, env) && env.mark == Fine && env.settle == Fine ==>
                store.jobRuns == v.runs[Key(job.id, v.window.value) := EndRow(job, now, env.send)])
    ensures env.send != SubmitFails(true) ==> executor.strays == old(executor.strays)
    ensures summary.scraped == old(summary.scraped)
    ensures Reached(x, trace, store.jobRuns, None, sends')
  {
    sends' := sends;
    ghost var v := Seen(c, store, scrapes, executor, now, job, env);
    var admitted;
    trace, admitted := Screen(c, store, scrapes, executor, summary, now, job, env, x, before, sends);
    if !admitted {
      return;
    }
    var first;
    trace, first := RecordFirst(c, store, summary, now, job, env, v, x, trace, sends);
    if first.None? {
      return;
    }
    var dispatched;
    trace, dispatched := Deliver(store, executor, summary, now, job, first.value, env, x, trace, sends);
    if dispatched {
      sends' := sends + [Key(job.id, first.value)];
    }
  }

  /** The loop body of Plan B for one job. Exactly one counter rises by one on every path. A job none
      of whose sources has a record is not dispatched and writes no row, nor does one that fails
      another check or has no computable window, so that a later tick can still send. A due job is
      handed to the pool, ends with the row and the counter that its send's end calls for, and is
      notified exactly when its send returned true. */
  method NotifyJob(c: Config, store: StateStore, scrapes: PlanA.ScrapeStore, executor: RotatingSendExecutor,
                   summary: Summary, now: int, job: Job, env: JobEnv,
                   ghost x: Context, ghost before: Trace, ghost sends: seq<Key>)
    returns (ghost trace: Trace, ghost sends': seq<Key>)
    requires x.c == c && x.now == now && x.job == job
    requires executor.Valid() && executor.awaited.None?
    requires Reached(x, before, store.jobRuns, Some(Check), sends)
    modifies store, summary, executor
    ensures executor.Valid() && executor.awaited.None?
    ensures var v := old(Seen(c, store, scrapes, executor, now, job, env));
            && summary.Counts() == old(summary.Counts()).Bump(JobCounter(v, job, env))
            && sends' == (if Dispatches(v, job, env) then sends + [Key(job.id, v.window.value)] else sends)
            && (!Admitted(v, job, env) || v.window.None? ==> store.jobRuns == v.runs)
    ensures summary.notified > old(summary.notified) ==> sends' != sends && env.send == Returns(true)
    ensures !HasRecord(scrapes.scrapes, job) ==>
              sends' == sends && store.jobRuns == old(store.jobRuns) && summary.notified == old(summary.notified)
    ensures var v := old(Seen(c, store, scrapes, executor, now, job, env));
            Due(v, job, env) ==>
              var k := Key(job.id, v.window.value);
              && sends' == (if env.send != SubmitFails(false) then sends + [k] else sends)
              && store.jobRuns == old(store.jobRuns)[k := EndRow(job, now, env.send)]
              && summary.notified == old(summary.notified) + (if env.send == Returns(true) then 1 else 0)
              && summary.skipped == old(summary.skipped) + (if env.send == Returns(false) then 1 else 0)
              && summary.errors == old(summary.errors) + (if env.send.Returns? then 0 else 1)
    ensures env.send != SubmitFails(true) ==> executor.strays == old(executor.strays)
    ensures summary.scraped == old(summary.scraped)
    ensures Reached(x, trace, store.jobRuns, None, sends')
  {
    ghost var v := Seen(c, store, scrapes, executor, now, job, env);
    DueIsAdmitted(v, job, env);
    trace, sends' := ProcessJob(c, store, scrapes, executor, summary, now, job, env, x, before, sends);
  }

  // ----- Ticks

  /** How loading and indexing an owner's registry ends. The sites and the sources are two reads: a
      source that appears between them names an unknown site, and indexing it raises. */
  datatype Load = Loaded | LoadRaises | IndexRaises

  /** One tick's inputs: the listed jobs (`None` when the listing raised), how the owners' registries
      load, and how the environment treats reaps, sources and jobs. */
  datatype Tick = Tick(
    now: int, listed: Option<seq<Job>>, reap: nat -> Fault, loads: string -> Load,
    sources: PlanA.Key -> PlanA.SourceEnv, env: nat -> JobEnv)

  /** Every owner's registry can be indexed, or is skipped because it did not load. */
  predicate Indexed(tick: Tick, jobs: seq<Job>) {
    forall j | j in jobs :: !tick.loads(j.owner).IndexRaises?
  }

  /** The condition for a tick to return a summary: every listed cron text can be read and every
      loaded registry indexed, or listing the jobs raised. */
  predicate Completes(c: Config, tick: Tick) {
    tick.listed.Some? ==> PlanA.Readable(c.grids, tick.listed.value) && Indexed(tick, tick.listed.value)
  }

  /** A source of an owner whose registry did not load resolves to nothing. */
  function SourceEnvs(tick: Tick): PlanA.Key -> PlanA.SourceEnv {
    (k: PlanA.Key) => tick.sources(k).(resolvable := tick.loads(k.owner).Loaded? && tick.sources(k).resolvable)
  }

  /** A tick scrapes a source if and only if every listed cron text can be read, its owner's registry
      loaded and resolves it, its history can be read, its tier is installed, and some job that
      references it finds it stale. */
  lemma TickScrapesIff(c: Config, tick: Tick, jobs: seq<Job>, t: seq<PlanA.Scrape>, k: PlanA.Key)
    requires ValidConfig(c)
    ensures k in PlanA.TickScrapes(c.grids, tick.now, jobs, t, SourceEnvs(tick)).0 <==>
            && (forall j | j in jobs :: c.grids(Schedule(j.schedule.cron, UTC)).Some?)
            && tick.loads(k.owner) == Loaded
            && tick.sources(k).resolvable && !tick.sources(k).historyRaises && tick.sources(k).tierAvailable
            && exists j | j in jobs && j.owner == k.owner && k.source in j.sources ::
                 PlanA.StaleFor(c.grids, j, tick.now, t, k)
  {
    PlanA.ScrapedIffStale(c.grids, tick.now, jobs, t, SourceEnvs(tick), k);
  }

  function UnloadedOwners(tick: Tick, jobs: seq<Job>): set<string> {
    set j | j in jobs && tick.loads(j.owner).LoadRaises? :: j.owner
  }

  ghost predicate AtPc(c: Config, start: State, e: Evaluator, trace: Trace, runs: Table, pc: Pc, sends: seq<Key>) {
    ValidConfig(c) && Run(c, start, trace) == Some(State(runs, map[e := pc], sends))
  }

  /** No submission of the tick raises after queueing its work item. */
  ghost predicate NoStrays(tick: Tick) {
    forall n: nat :: tick.env(n).send != SubmitFails(true)
  }

  /** The summary has risen from `from` by the counters, one each. */
  ghost predicate Counted(t: Tally, from: Tally, counters: seq<Counter>) {
    && t.notified == from.notified + multiset(counters)[Notified]
    && t.skipped == from.skipped + multiset(counters)[Skipped]
    && t.errors == from.errors + multiset(counters)[Errors]
  }

  lemma CountedSnoc(t: Tally, from: Tally, counters: seq<Counter>, x: Counter)
    requires Counted(t, from, counters)
    ensures Counted(t.Bump(x), from, counters + [x])
  {
  }

  method RunPlanB(c: Config, store: StateStore, scrapes: PlanA.ScrapeStore, executor: RotatingSendExecutor,
                  summary: Summary, tick: Tick, jobs: seq<Job>,
                  ghost start: State, ghost e: Evaluator, ghost before: Trace, ghost sends: seq<Key>)
    returns (ghost trace: Trace, ghost sends': seq<Key>, ghost counters: seq<Counter>)
    requires executor.Valid() && executor.awaited.None?
    requires AtPc(c, start, e, before, store.jobRuns, Next(tick.now, jobs), sends)
    modifies store, summary, executor
    ensures executor.Valid() && executor.awaited.None?
    ensures |counters| == |jobs| && Counted(summary.Counts(), old(summary.Counts()), counters)
    ensures multiset(counters)[Notified] <= |sends'| - |sends|
    ensures NoStrays(tick) ==> executor.strays == old(executor.strays)
    ensures summary.scraped == old(summary.scraped)
    ensures AtPc(c, start, e, trace, store.jobRuns, Idle, sends')
  {
    trace, sends', counters := before, sends, [];
    var i := 0;
    assert jobs[0..] == jobs;
    while i < |jobs|
      invariant 0 <= i <= |jobs|
      invariant executor.Valid() && executor.awaited.None?
      invariant |counters| == i && Counted(summary.Counts(), old(summary.Counts()), counters)
      invariant multiset(counters)[Notified] <= |sends'| - |sends|
      invariant summary.scraped == old(summary.scraped)
      invariant NoStrays(tick) ==> executor.strays == old(executor.strays)
      invariant AtPc(c, start, e, trace, store.jobRuns, Next(tick.now, jobs[i..]), sends')
    {
      assert jobs[i..][0] == jobs[i] && jobs[i..][1..] == jobs[i + 1..];
      ghost var x := Context(c, start, e, tick.now, jobs[i], jobs[i + 1..]);
      ghost var counter := JobCounter(
        Seen(c, store, scrapes, executor, tick.now, jobs[i], tick.env(i)), jobs[i], tick.env(i));
      CountedSnoc(summary.Counts(), old(summary.Counts()), counters, counter);
      trace, sends' := NotifyJob(
        c, store, scrapes, executor, summary, tick.now, jobs[i], tick.env(i), x, trace, sends');
      counters := counters + [counter];
      i := i + 1;
    }
  }

  lemma TakeAt(c: Config, start: State, e: Evaluator, trace: Trace, runs: Table, pc: Pc, sends: seq<Key>, a: Action)
    requires AtPc(c, start, e, trace, runs, pc, sends)
    ensures Run(c, start, trace + [(e, a)]) == Step(c, State(runs, map[e := pc], sends), e, a)
    ensures forall p: Pc, q: Pc :: map[e := p][e := q] == map[e := q]
  {
    RunAppend(c, start, trace, [(e, a)]);
    RunOne(c, State(runs, map[e := pc], sends), e, a);
  }

  lemma TakeBegin(c: Config, start: State, e: Evaluator, trace: Trace, runs: Table, sends: seq<Key>,
                  now: int, jobs: seq<Job>)
    requires AtPc(c, start, e, trace, runs, Idle, sends)
    ensures AtPc(c, start, e, trace + [(e, Begin(now, jobs))], runs, Reaping(now, jobs, jobs), sends)
  {
    TakeAt(c, start, e, trace, runs, Idle, sends, Begin(now, jobs));
  }

  lemma TakeReap(c: Config, start: State, e: Evaluator, trace: Trace, runs: Table, sends: seq<Key>,
                 now: int, jobs: seq<Job>, i: nat, fault: Fault)
    requires i < |jobs| && AtPc(c, start, e, trace, runs, Reaping(now, jobs[i..], jobs), sends)
    ensures AtPc(c, start, e, trace + [(e, ReapOne(fault))],
                 Committed(fault, runs, Reap(runs, jobs[i].owner, jobs[i].id, now - c.reaperTimeout)),
                 Reaping(now, jobs[i + 1..], jobs), sends)
  {
    assert jobs[i..][0] == jobs[i] && jobs[i..][1..] == jobs[i + 1..];
    TakeAt(c, start, e, trace, runs, Reaping(now, jobs[i..], jobs), sends, ReapOne(fault));
  }

  /** After the sweep a tick starts Plan B, or ends because Plan A raised. */
  lemma TakeAfterSweep(c: Config, start: State, e: Evaluator, trace: Trace, runs: Table, sends: seq<Key>,
                       now: int, jobs: seq<Job>)
    requires AtPc(c, start, e, trace, runs, Reaping(now, [], jobs), sends)
    ensures AtPc(c, start, e, trace + [(e, StartPlanB)], runs, Next(now, jobs), sends)
    ensures AtPc(c, start, e, trace + [(e, Crash)], runs, Idle, sends)
  {
    TakeAt(c, start, e, trace, runs, Reaping(now, [], jobs), sends, StartPlanB);
    TakeAt(c, start, e, trace, runs, Reaping(now, [], jobs), sends, Crash);
  }

  lemma ReapAllSnoc(t: Table, jobs: seq<Job>, i: nat, faults: nat -> Fault, firedBefore: int)
    requires i < |jobs|
    ensures var u := ReapAll(t, jobs[..i], faults, firedBefore);
            ReapAll(t, jobs[..i + 1], faults, firedBefore)
              == Committed(faults(i), u, Reap(u, jobs[i].owner, jobs[i].id, firedBefore))
  {
    assert jobs[..i + 1][..i] == jobs[..i];
  }

  /** One reap call of the sweep, whose answer is ignored. */
  method ReapJob(c: Config, store: StateStore, now: int, jobs: seq<Job>, i: nat, fault: Fault,
                 ghost start: State, ghost e: Evaluator, ghost before: Trace, ghost sends: seq<Key>)
    returns (ghost trace: Trace)
    requires i < |jobs| && AtPc(c, start, e, before, store.jobRuns, Reaping(now, jobs[i..], jobs), sends)
    modifies store
    ensures store.jobRuns == Committed(fault, old(store.jobRuns),
              Reap(old(store.jobRuns), jobs[i].owner, jobs[i].id, now - c.reaperTimeout))
    ensures AtPc(c, start, e, trace, store.jobRuns, Reaping(now, jobs[i + 1..], jobs), sends)
  {
    TakeReap(c, start, e, before, store.jobRuns, sends, now, jobs, i, fault);
    trace := before + [(e, ReapOne(fault))];
    var _ := store.ReapStaleJobRun(jobs[i].owner, jobs[i].id, now - c.reaperTimeout, fault);
  }

  /** The reaper sweep of a tick. */
  method ReapStaleJobRuns(c: Config, store: StateStore, tick: Tick, jobs: seq<Job>,
                          ghost start: State, ghost e: Evaluator, ghost before: Trace, ghost sends: seq<Key>)
    returns (ghost trace: Trace)
    requires AtPc(c, start, e, before, store.jobRuns, Reaping(tick.now, jobs, jobs), sends)
    modifies store
    ensures store.jobRuns == ReapAll(old(store.jobRuns), jobs, tick.reap, tick.now - c.reaperTimeout)
    ensures AtPc(c, start, e, trace, store.jobRuns, Reaping(tick.now, [], jobs), sends)
  {
    trace := before;
    var i := 0;
    assert jobs[0..] == jobs;
    while i < |jobs|
      invariant 0 <= i <= |jobs|
      invariant store.jobRuns == ReapAll(old(store.jobRuns), jobs[..i], tick.reap, tick.now - c.reaperTimeout)
      invariant AtPc(c, start, e, trace, store.jobRuns, Reaping(tick.now, jobs[i..], jobs), sends)
    {
      ReapAllSnoc(old(store.jobRuns), jobs, i, tick.reap, tick.now - c.reaperTimeout);
      trace := ReapJob(c, store, tick.now, jobs, i, tick.reap(i), start, e, trace, sends);
      i := i + 1;
    }
    assert jobs[i..] == [] && jobs[..i] == jobs;
  }

  /** Loading and indexing the registries, one per owner: one that does not load is an error, one that
      cannot be indexed ends the tick, `None`. */
  method LoadRegistries(tick: Tick, jobs: seq<Job>) returns (errors: Option<nat>)
    ensures errors == if Indexed(tick, jobs) then Some(|UnloadedOwners(tick, jobs)|) else None
  {
    var owners := set j | j in jobs :: j.owner;
    ghost var failed: set<string> := {};
    var n := 0;
    while owners != {}
      invariant n == |failed| && owners !! failed
      invariant forall o | o in owners :: exists j :: j in jobs && j.owner == o
      invariant forall j | j in jobs :: j.owner in owners || !tick.loads(j.owner).IndexRaises?
      invariant forall o :: o in UnloadedOwners(tick, jobs) <==>
                  o in failed || (o in owners && tick.loads(o).LoadRaises?)
    {
      var o :| o in owners;
      if tick.loads(o).IndexRaises? {
        return None;
      }
      if tick.loads(o).LoadRaises? {
        failed := failed + {o};
        n := n + 1;
      }
      owners := owners - {o};
    }
    assert failed == UnloadedOwners(tick, jobs);
    errors := Some(n);
  }

  /** The errors of a completed tick that are not about a job of its own: a listing that raised, each
      owner whose registry did not load, and each source whose handling raised. */
  ghost function TickFailures(c: Config, tick: Tick, scrapes: seq<PlanA.Scrape>): nat
    requires ValidConfig(c) && Completes(c, tick)
  {
    match tick.listed
    case None => 1
    case Some(jobs) =>
      |UnloadedOwners(tick, jobs)| + PlanA.PlanACounts(c.grids, tick.now, jobs, scrapes, SourceEnvs(tick)).1
  }

  ghost function TickScraped(c: Config, tick: Tick, scrapes: seq<PlanA.Scrape>): nat
    requires ValidConfig(c) && Completes(c, tick)
  {
    match tick.listed
    case None => 0
    case Some(jobs) => PlanA.PlanACounts(c.grids, tick.now, jobs, scrapes, SourceEnvs(tick)).0
  }

  /** What a completed tick's summary owes to loading and scraping. */
  lemma TickCountsMeaning(c: Config, tick: Tick, scrapes: seq<PlanA.Scrape>)
    requires ValidConfig(c) && Completes(c, tick)
    ensures tick.listed.None? ==> TickFailures(c, tick, scrapes) == 1 && TickScraped(c, tick, scrapes) == 0
    ensures tick.listed.Some? ==>
              var (jobs, env) := (tick.listed.value, SourceEnvs(tick));
              var log := PlanA.TickScrapes(c.grids, tick.now, jobs, scrapes, env).0;
              && TickScraped(c, tick, scrapes) == |PlanA.ScrapedFine(log, env)|
              && TickFailures(c, tick, scrapes) ==
                   |set j | j in jobs && tick.loads(j.owner) == LoadRaises :: j.owner|
                   + |PlanA.HistoryRaised(PlanA.Referenced(jobs), env)| + |PlanA.ScrapeRaised(log, env)|
  {
    if tick.listed.Some? {
      PlanA.PlanACountsMeaning(c.grids, tick.now, tick.listed.value, scrapes, SourceEnvs(tick));
      assert UnloadedOwners(tick, tick.listed.value)
          == set j | j in tick.listed.value && tick.loads(j.owner) == LoadRaises :: j.owner;
    }
  }

  /** A tick with jobs up to the end of Plan A: the counts of scrapes and errors, `None` when it raised. */
  method SweepAndScrape(c: Config, store: StateStore, scrapes: PlanA.ScrapeStore, tick: Tick, jobs: seq<Job>,
                        ghost start: State, ghost e: Evaluator, ghost before: Trace, ghost sends: seq<Key>)
    returns (counts: Option<(nat, nat)>, ghost trace: Trace)
    requires AtPc(c, start, e, before, store.jobRuns, Idle, sends)
    modifies store, scrapes
    ensures store.jobRuns == ReapAll(old(store.jobRuns), jobs, tick.reap, tick.now - c.reaperTimeout)
    ensures counts.Some? <==> PlanA.Readable(c.grids, jobs) && Indexed(tick, jobs)
    ensures scrapes.scrapes ==
              if counts.None? then old(scrapes.scrapes)
              else PlanA.TickScrapes(c.grids, tick.now, jobs, old(scrapes.scrapes), SourceEnvs(tick)).1
    ensures counts.Some? ==>
              var (scraped, errors) :=
                PlanA.PlanACounts(c.grids, tick.now, jobs, old(scrapes.scrapes), SourceEnvs(tick));
              counts.value == (scraped, |UnloadedOwners(tick, jobs)| + errors)
    ensures AtPc(c, start, e, trace, store.jobRuns, if counts.Some? then Next(tick.now, jobs) else Idle, sends)
  {
    TakeBegin(c, start, e, before, store.jobRuns, sends, tick.now, jobs);
    trace := before + [(e, Begin(tick.now, jobs))];
    trace := ReapStaleJobRuns(c, store, tick, jobs, start, e, trace, sends);
    TakeAfterSweep(c, start, e, trace, store.jobRuns, sends, tick.now, jobs);
    var unloaded := LoadRegistries(tick, jobs);
    if unloaded.None? {
      return None, trace + [(e, Crash)];
    }
    counts := scrapes.RunPlanA(c.grids, tick.now, jobs, SourceEnvs(tick));
    if counts.None? {
      trace := trace + [(e, Crash)];
    } else {
      trace := trace + [(e, StartPlanB)];
      counts := Some((counts.value.0, unloaded.value + counts.value.1));
    }
  }

  /** One tick: list, reap, Plan A, Plan B. It returns its summary if and only if listing raised, or
      every listed cron text can be read and every loaded registry indexed; a tick that raises,
      `null`, has swept the table, scraped nothing and notified no job of any owner. */
  method EvaluateTick(c: Config, store: StateStore, scrapes: PlanA.ScrapeStore, executor: RotatingSendExecutor,
                      tick: Tick, ghost start: State, ghost e: Evaluator, ghost before: Trace, ghost sends: seq<Key>)
    returns (summary: Summary?, ghost trace: Trace, ghost sends': seq<Key>, ghost counters: seq<Counter>)
    requires executor.Valid() && executor.awaited.None?
    requires AtPc(c, start, e, before, store.jobRuns, Idle, sends)
    modifies store, scrapes, executor
    ensures executor.Valid() && executor.awaited.None?
    ensures summary != null <==> Completes(c, tick)
    ensures summary != null ==>
              && fresh(summary) && |counters| == (if tick.listed.None? then 0 else |tick.listed.value|)
              && Counted(summary.Counts(), Tally(0, 0, TickFailures(c, tick, old(scrapes.scrapes))), counters)
              && summary.notified <= |sends'| - |sends|
    ensures summary != null ==> summary.scraped == TickScraped(c, tick, old(scrapes.scrapes))
    ensures scrapes.scrapes ==
              if tick.listed.None? || summary == null then old(scrapes.scrapes)
              else PlanA.TickScrapes(c.grids, tick.now, tick.listed.value, old(scrapes.scrapes), SourceEnvs(tick)).1
    ensures summary == null ==>
              && sends' == sends
              && store.jobRuns == ReapAll(old(store.jobRuns), tick.listed.value, tick.reap, tick.now - c.reaperTimeout)
    ensures tick.listed.None? ==> sends' == sends && store.jobRuns == old(store.jobRuns)
    ensures NoStrays(tick) ==> executor.strays == old(executor.strays)
    ensures AtPc(c, start, e, trace, store.jobRuns, Idle, sends')
  {
    summary := new Summary();
    trace, sends', counters := before, sends, [];
    if tick.listed.None? {
      summary.errors := summary.errors + 1;
      return;
    }
    var jobs := tick.listed.value;
    if jobs == [] {
      return;
    }
    var counts;
    counts, trace := SweepAndScrape(c, store, scrapes, tick, jobs, start, e, trace, sends);
    if counts.None? {
      return null, trace, sends, [];
    }
    summary.scraped, summary.errors := counts.value.0, counts.value.1;
    trace, sends', counters := RunPlanB(c, store, scrapes, executor, summary, tick, jobs, start, e, trace, sends);
  }

  /** The evaluator loop over any sequence of ticks; one that raises is caught here. No (job, window)
      is dispatched twice, nothing recorded before is dispatched, and at the end, as after every
      tick, at most three timed out sends per worker are alive and the current pool is free of
      unfinished sends, strays apart, of which there are none unless a submission raised after
      queueing. While some listed cron text cannot be read, nothing at all is dispatched. */
  method RunEvaluatorLoop(c: Config, store: StateStore, scrapes: PlanA.ScrapeStore, maxConcurrentSends: nat,
                          ticks: seq<Tick>)
    returns (executor: RotatingSendExecutor, ghost trace: Trace, ghost sends: seq<Key>)
    requires ValidConfig(c)
    modifies store, scrapes
    ensures Run(c, Start(old(store.jobRuns)), trace).Some?
    ensures Run(c, Start(old(store.jobRuns)), trace).value.runs == store.jobRuns
    ensures Run(c, Start(old(store.jobRuns)), trace).value.sends == sends
    ensures forall i, j :: 0 <= i < j < |sends| ==> sends[i] != sends[j]
    ensures forall k | k in sends :: k in store.jobRuns && k !in old(store.jobRuns)
    ensures (forall i | 0 <= i < |ticks| :: !Completes(c, ticks[i])) ==> sends == []
    ensures |executor.retired| <= 3 * (if maxConcurrentSends > 1 then maxConcurrentSends else 1)
    ensures forall f | f in executor.pool && executor.pool[f] == executor.current && f !in executor.strays ::
              f in executor.done
    ensures (forall i | 0 <= i < |ticks| :: NoStrays(ticks[i])) ==> executor.strays == {}
  {
    executor := new RotatingSendExecutor(if maxConcurrentSends > 1 then maxConcurrentSends else 1);
    ghost var start := Start(store.jobRuns);
    ghost var e: Evaluator := 0;
    // A crash of the idle evaluator changes nothing and puts it in the table of program counters.
    RunOne(c, start, e, Crash);
    trace, sends := [(e, Crash)], [];
    assert start.pcs[e := Idle] == map[e := Idle];
    var i := 0;
    while i < |ticks|
      invariant 0 <= i <= |ticks|
      invariant executor.Valid() && executor.awaited.None? && fresh(executor)
      invariant AtPc(c, start, e, trace, store.jobRuns, Idle, sends)
      invariant (forall n | 0 <= n < i :: !Completes(c, ticks[n])) ==> sends == []
      invariant (forall n | 0 <= n < i :: NoStrays(ticks[n])) ==> executor.strays == {}
    {
      var summary;
      ghost var counters;
      summary, trace, sends, counters := EvaluateTick(c, store, scrapes, executor, ticks[i], start, e, trace, sends);
      i := i + 1;
    }
    RunKeepsSafe(c, start, start.runs.Keys, trace);
  }

  const HOUR := 3_600_000_000

  /** A croniter that reads every text but one as hourly. */
  function Hourly(): Grids {
    (s: Schedule) => if s.cron == "a b c d e" then None else Some((i: int) => i * HOUR)
  }

  /** One owner's cron text stops every owner. A text of five fields is stored without being read, and
      a tick that lists it does not complete, so by the contract of `EvaluateTick` it dispatches
      nothing; the other owner's window is due, and without that text it is dispatched. */
  lemma OneCronTextStopsEveryOwner(tick: Tick)
    requires forall o :: tick.loads(o) == Loaded
    requires tick.listed == Some([Job("1", "a", Schedule("a b c d e", UTC), []),
                                  Job("2", "b", Schedule("0 * * * *", UTC), ["s"])])
    ensures var (c, good) := (Config(Hourly(), 300_000_000), tick.listed.value[1]);
            && ValidConfig(c) && !Completes(c, tick) && Completes(c, tick.(listed := Some([good])))
            && var alone := Run(c, Start(map[]), TickDispatch(0, tick.now, good));
               alone.Some? && Window(c, good, tick.now).Some?
               && alone.value.sends == [Key("2", Window(c, good, tick.now).value)]
  {
    var c := Config(Hourly(), 300_000_000);
    var (bad, good) := (tick.listed.value[0], tick.listed.value[1]);
    assert bad in tick.listed.value && PlanA.InUtc(c.grids, bad).None?;
    assert "0 * * * *"[0] != "a b c d e"[0];
    LoneJobDispatched(c, Start(map[]), 0, tick.now, good);
  }
}
