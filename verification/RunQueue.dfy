/**
 The background run queue: a coalescing FIFO, one consumer, and a supervisor that restarts the
 consumer after a crash until the restart budget is spent. No lock body suspends and the queue is
 unbounded, so an enqueue, a take, a finish and a crash with its clean-up are each one step.
 */
module RunQueue {
  import opened Wrappers

  datatype RunState = Queued | Running | Done | Error

  datatype Config = Config(maxRestarts: int, cooldown: real, backlogThreshold: int)

  /** Where the consumer is: polling the queue, running an owner, in the restart back-off, or gone. */
  datatype Consumer = Polling | Busy(owner: string) | Backoff | Stopped

  datatype Queue = Queue(
    fifo: seq<string>,
    queuedOrRunning: set<string>,
    status: map<string, RunState>,
    doneAt: map<string, real>,
    restarts: int,
    dead: bool,
    backlogWarned: bool,
    consumer: Consumer)

  function Empty(): Queue {
    Queue([], {}, map[], map[], 0, false, false, Polling)
  }

  // ----- Steps

  /** `_check_backlog_warning_locked`: raise the flag at the threshold, lower it below. */
  function CheckBacklog(c: Config, q: Queue): Queue {
    if c.backlogThreshold <= 0 then q
    else if |q.queuedOrRunning| >= c.backlogThreshold && !q.backlogWarned then q.(backlogWarned := true)
    else if |q.queuedOrRunning| < c.backlogThreshold && q.backlogWarned then q.(backlogWarned := false)
    else q
  }

  lemma CheckBacklogFrame(c: Config, q: Queue)
    ensures CheckBacklog(c, q) == q.(backlogWarned := CheckBacklog(c, q).backlogWarned)
  {
  }

  /** `cooldown_remaining_seconds`. */
  function CooldownRemaining(c: Config, q: Queue, o: string, now: real): Option<real> {
    if c.cooldown <= 0.0 || o !in q.status || q.status[o] != Done || o !in q.doneAt then None
    else
      var remaining := c.cooldown - (now - q.doneAt[o]);
      if remaining > 0.0 then Some(remaining) else None
  }

  predicate Accepts(c: Config, q: Queue, o: string, now: real) {
    !q.dead && CooldownRemaining(c, q, o, now).None? && o !in q.queuedOrRunning
  }

  function Enqueue(c: Config, q: Queue, o: string, now: real): Queue {
    if q.dead then q.(status := q.status[o := Error])
    else if !Accepts(c, q, o, now) then q
    else
      var r := CheckBacklog(c, q.(queuedOrRunning := q.queuedOrRunning + {o}, status := q.status[o := Queued]));
      r.(fifo := r.fifo + [o])
  }

  function Take(q: Queue): Queue
    requires q.consumer.Polling? && q.fifo != []
  {
    var o := q.fifo[0];
    q.(fifo := q.fifo[1..], status := q.status[o := Running], consumer := Busy(o))
  }

  /** The end of a run, `now` being the monotonic time of a success and `None` after a failure. */
  function Finish(c: Config, q: Queue, now: Option<real>): Queue
    requires q.consumer.Busy?
  {
    var o := q.consumer.owner;
    var r := match now {
      case None => q.(status := q.status[o := Error])
      case Some(t) => q.(status := q.status[o := Done], doneAt := q.doneAt[o := t], restarts := 0)
    };
    CheckBacklog(c, r.(queuedOrRunning := r.queuedOrRunning - {o}, consumer := Polling))
  }

  /** A status that the supervisor's clean-up turns into an error. */
  predicate Lost(s: RunState, dying: bool) {
    s == Running || (dying && s == Queued)
  }

  function AfterClear(status: map<string, RunState>, dying: bool): map<string, RunState> {
    map o | o in status :: if Lost(status[o], dying) then Error else status[o]
  }

  function LostOwners(status: map<string, RunState>, dying: bool): set<string> {
    set o | o in status && Lost(status[o], dying)
  }

  function Cleared(q: Queue, dying: bool): Queue {
    q.(restarts := q.restarts + 1,
       status := AfterClear(q.status, dying),
       queuedOrRunning := q.queuedOrRunning - LostOwners(q.status, dying))
  }

  /** The supervisor's handling of a crashed consumer; `stopping` when shutdown was requested. */
  function Crash(c: Config, q: Queue, stopping: bool): Queue {
    var dying := q.restarts + 1 > c.maxRestarts;
    var r := CheckBacklog(c, Cleared(q, dying));
    if stopping then r.(consumer := Stopped)
    else if dying then r.(dead := true, consumer := Stopped)
    else r.(consumer := Backoff)
  }

  /** A crash leaves the FIFO and the last successes, turns the run that was lost into an error and frees
      its owner, with every queued one too when the restart budget is spent, and then restarts, stops
      or dies. */
  lemma CrashMeaning(c: Config, q: Queue, stopping: bool, o: string)
    ensures var (q', dying) := (Crash(c, q, stopping), q.restarts + 1 > c.maxRestarts);
            var lost := o in q.status && (q.status[o] == Running || (dying && q.status[o] == Queued));
            && q'.fifo == q.fifo && q'.doneAt == q.doneAt && q'.restarts == q.restarts + 1
            && q'.dead == (q.dead || (dying && !stopping))
            && q'.consumer == (if stopping || dying then Stopped else Backoff)
            && (o in q'.status <==> o in q.status)
            && (o in q.status ==> q'.status[o] == if lost then Error else q.status[o])
            && (o in q'.queuedOrRunning <==> o in q.queuedOrRunning && !lost)
  {
    CheckBacklogFrame(c, Cleared(q, q.restarts + 1 > c.maxRestarts));
  }

  /** Cancelling the consumer's task: a busy one frees its owner on the way out and leaves the status. */
  function Cancel(c: Config, q: Queue): Queue {
    if q.consumer.Busy? then
      CheckBacklog(c, q.(queuedOrRunning := q.queuedOrRunning - {q.consumer.owner}, consumer := Stopped))
    else q.(consumer := Stopped)
  }

  // ----- The queue object

  class RunQueue {
    const c: Config
    var fifo: seq<string>
    var queuedOrRunning: set<string>
    var status: map<string, RunState>
    var doneAt: map<string, real>
    var restarts: int
    var dead: bool
    var backlogWarned: bool
    var consumer: Consumer

    ghost function Abstract(): Queue
      reads this
    {
      Queue(fifo, queuedOrRunning, status, doneAt, restarts, dead, backlogWarned, consumer)
    }

    constructor (c: Config)
      ensures this.c == c && Abstract() == Empty()
    {
      this.c := c;
      fifo, queuedOrRunning, status, doneAt := [], {}, map[], map[];
      restarts, dead, backlogWarned, consumer := 0, false, false, Polling;
    }

    method CheckBacklogWarning()
      modifies this`backlogWarned
      ensures Abstract() == CheckBacklog(c, old(Abstract()))
      ensures c.backlogThreshold > 0 ==> (backlogWarned <==> |queuedOrRunning| >= c.backlogThreshold)
      ensures c.backlogThreshold <= 0 ==> backlogWarned == old(backlogWarned)
    {
      if c.backlogThreshold <= 0 {
        return;
      }
      var depth := |queuedOrRunning|;
      if depth >= c.backlogThreshold && !backlogWarned {
        backlogWarned := true;
      } else if depth < c.backlogThreshold && backlogWarned {
        backlogWarned := false;
      }
    }

    method EnqueueOwner(o: string, now: real) returns (accepted: bool)
      modifies this
      ensures Abstract() == Enqueue(c, old(Abstract()), o, now)
      ensures accepted <==>
                && !old(dead) && o !in old(queuedOrRunning)
                && !(c.cooldown > 0.0 && o in old(status) && old(status)[o] == Done && o in old(doneAt)
                     && now < old(doneAt)[o] + c.cooldown)
      ensures accepted <==> Accepts(c, old(Abstract()), o, now)
      ensures accepted ==> fifo == old(fifo) + [o] && queuedOrRunning == old(queuedOrRunning) + {o}
                           && status == old(status)[o := Queued]
      ensures !accepted ==> fifo == old(fifo) && queuedOrRunning == old(queuedOrRunning)
                            && status == if old(dead) then old(status)[o := Error] else old(status)
      ensures doneAt == old(doneAt) && restarts == old(restarts) && dead == old(dead) && consumer == old(consumer)
    {
      if dead {
        status := status[o := Error];
        return false;
      }
      if c.cooldown > 0.0 && o in status && status[o] == Done && o in doneAt
         && c.cooldown - (now - doneAt[o]) > 0.0 {
        return false;
      }
      if o in queuedOrRunning {
        return false;
      }
      queuedOrRunning := queuedOrRunning + {o};
      status := status[o := Queued];
      CheckBacklogWarning();
      fifo := fifo + [o];
      accepted := true;
    }

    method TakeNext() returns (o: string)
      requires consumer.Polling? && fifo != []
      modifies this
      ensures o == old(fifo[0]) && Abstract() == Take(old(Abstract()))
      ensures old(fifo) == [o] + fifo && consumer == Busy(o) && status == old(status)[o := Running]
      ensures queuedOrRunning == old(queuedOrRunning) && doneAt == old(doneAt)
    {
      o := fifo[0];
      fifo := fifo[1..];
      status := status[o := Running];
      consumer := Busy(o);
    }

    method FinishRun(now: Option<real>)
      requires consumer.Busy?
      modifies this
      ensures Abstract() == Finish(c, old(Abstract()), now)
      ensures consumer == Polling && fifo == old(fifo)
      ensures queuedOrRunning == old(queuedOrRunning) - {old(consumer).owner}
      ensures doneAt == if now.Some? then old(doneAt)[old(consumer).owner := now.value] else old(doneAt)
      ensures status == old(status)[old(consumer).owner := if now.Some? then Done else Error]
    {
      var o := consumer.owner;
      if now.None? {
        status := status[o := Error];
      } else {
        status := status[o := Done];
        doneAt := doneAt[o := now.value];
        restarts := 0;
      }
      queuedOrRunning := queuedOrRunning - {o};
      consumer := Polling;
      CheckBacklogWarning();
    }

    /** The clean-up loop over the status dictionary. */
    method ClearLost(dying: bool)
      modifies this`status, this`queuedOrRunning
      ensures status == AfterClear(old(status), dying)
      ensures queuedOrRunning == old(queuedOrRunning) - LostOwners(old(status), dying)
    {
      var todo := status.Keys;
      while todo != {}
        invariant todo <= status.Keys && status.Keys == old(status).Keys
        invariant forall o | o in status ::
                    status[o] == if o in todo then old(status)[o] else AfterClear(old(status), dying)[o]
        invariant forall o :: o in queuedOrRunning <==>
                    o in old(queuedOrRunning) && !(o in LostOwners(old(status), dying) && o !in todo)
      {
        var o :| o in todo;
        if Lost(status[o], dying) {
          status := status[o := Error];
          queuedOrRunning := queuedOrRunning - {o};
        }
        todo := todo - {o};
      }
    }

    method CancelConsumer()
      modifies this
      ensures Abstract() == Cancel(c, old(Abstract()))
      ensures consumer == Stopped && fifo == old(fifo) && status == old(status)
      ensures queuedOrRunning ==
                if old(consumer).Busy? then old(queuedOrRunning) - {old(consumer).owner} else old(queuedOrRunning)
    {
      if consumer.Busy? {
        queuedOrRunning := queuedOrRunning - {consumer.owner};
        consumer := Stopped;
        CheckBacklogWarning();
      } else {
        consumer := Stopped;
      }
    }

    /** The bookkeeping of a crash: count it, clear the lost runs and check the backlog. */
    method CountAndClear() returns (dying: bool)
      modifies this`restarts, this`status, this`queuedOrRunning, this`backlogWarned
      ensures dying <==> old(restarts) + 1 > c.maxRestarts
      ensures Abstract() == CheckBacklog(c, Cleared(old(Abstract()), dying))
    {
      restarts := restarts + 1;
      dying := restarts > c.maxRestarts;
      ClearLost(dying);
      assert Abstract() == Cleared(old(Abstract()), dying);
      CheckBacklogWarning();
    }

    method HandleCrash(stopping: bool)
      modifies this
      ensures Abstract() == Crash(c, old(Abstract()), stopping)
    {
      var dying := CountAndClear();
      if stopping {
        consumer := Stopped;
      } else if dying {
        dead := true;
        consumer := Stopped;
      } else {
        consumer := Backoff;
      }
    }
  }

  // ----- Runs, with their history

  datatype Event =
    | Enqueued(owner: string, now: real)
    | Took
    | Finished(at: Option<real>)
    | Crashed(stopping: bool)
    | Restarted
    | StopSeen
    | Cancelled

  /** The queue, the latest clock reading, and the owners of all accepted enqueues and started runs. */
  datatype World = World(q: Queue, clock: real, accepted: seq<string>, started: seq<string>)

  function Begin(clock: real): World {
    World(Empty(), clock, [], [])
  }

  /** The next world, if the event can happen there and its clock reading does not go back. */
  function Step(c: Config, w: World, ev: Event): Option<World> {
    match ev
    case Enqueued(o, now) =>
      if now < w.clock then None
      else Some(w.(q := Enqueue(c, w.q, o, now), clock := now,
                   accepted := if Accepts(c, w.q, o, now) then w.accepted + [o] else w.accepted))
    case Took =>
      if !w.q.consumer.Polling? || w.q.fifo == [] then None
      else Some(w.(q := Take(w.q), started := w.started + [w.q.fifo[0]]))
    case Finished(now) =>
      if !w.q.consumer.Busy? || (now.Some? && now.value < w.clock) then None
      else Some(w.(q := Finish(c, w.q, now), clock := if now.Some? then now.value else w.clock))
    case Crashed(stopping) =>
      if w.q.consumer.Polling? || w.q.consumer.Busy? then Some(w.(q := Crash(c, w.q, stopping))) else None
    case Restarted =>
      if w.q.consumer.Backoff? then Some(w.(q := w.q.(consumer := Polling))) else None
    case StopSeen =>
      if w.q.consumer.Polling? then Some(w.(q := w.q.(consumer := Stopped))) else None
    case Cancelled =>
      if w.q.consumer.Stopped? then None else Some(w.(q := Cancel(c, w.q)))
  }

  function Run(c: Config, w: World, events: seq<Event>): Option<World>
    decreases |events|
  {
    if events == [] then Some(w)
    else
      match Step(c, w, events[0])
      case None => None
      case Some(v) => Run(c, v, events[1..])
  }

  // ----- FIFO, status and set agree

  ghost predicate NoDuplicates(s: seq<string>) {
    forall i, j :: 0 <= i < j < |s| ==> s[i] != s[j]
  }

  ghost predicate Consistent(q: Queue) {
    && NoDuplicates(q.fifo)
    && (forall o :: o in q.fifo <==> o in q.status && q.status[o] == Queued)
    && (forall o :: o in q.status && q.status[o] == Running <==> q.consumer == Busy(o))
    && (forall o :: o in q.queuedOrRunning <==> o in q.fifo || q.consumer == Busy(o))
  }

  /** The flag is the comparison, whenever a threshold is set. */
  predicate FlagExact(c: Config, q: Queue) {
    c.backlogThreshold > 0 ==> (q.backlogWarned <==> |q.queuedOrRunning| >= c.backlogThreshold)
  }

  ghost predicate Inv(c: Config, w: World) {
    && w.accepted == w.started + w.q.fifo
    && FlagExact(c, w.q)
    && (w.q.dead ==> w.q.consumer == Stopped && forall o | o in w.q.fifo :: o in w.q.status && w.q.status[o] == Error)
    && (w.q.consumer != Stopped ==> Consistent(w.q))
  }

  lemma EnqueueConsistent(c: Config, q: Queue, o: string, now: real)
    requires Consistent(q) && Accepts(c, q, o, now)
    ensures Consistent(Enqueue(c, q, o, now))
  {
    assert forall p :: p in q.fifo + [o] <==> p in q.fifo || p == o;
  }

  lemma TakeConsistent(q: Queue)
    requires Consistent(q) && q.consumer.Polling? && q.fifo != []
    ensures Consistent(Take(q))
  {
    var o := q.fifo[0];
    assert q.fifo == [o] + q.fifo[1..];
    assert forall p :: p in q.fifo <==> p == o || p in q.fifo[1..];
    assert o !in q.fifo[1..];
  }

  lemma FinishFrame(c: Config, q: Queue, now: Option<real>)
    requires q.consumer.Busy?
    ensures var (q', o) := (Finish(c, q, now), q.consumer.owner);
            && q'.fifo == q.fifo && q'.consumer.Polling? && q'.queuedOrRunning == q.queuedOrRunning - {o}
            && q'.status == q.status[o := if now.Some? then Done else Error]
  {
  }

  lemma FinishConsistent(c: Config, q: Queue, now: Option<real>)
    requires Consistent(q) && q.consumer.Busy?
    ensures Consistent(Finish(c, q, now))
  {
    var o := q.consumer.owner;
    FinishFrame(c, q, now);
    assert o !in q.fifo;
  }

  lemma CrashConsistent(c: Config, q: Queue, stopping: bool)
    requires Consistent(q) && !Crash(c, q, stopping).consumer.Stopped?
    ensures Consistent(Crash(c, q, stopping))
  {
    var r := Crash(c, q, stopping);
    assert forall o | o in q.status :: r.status[o] == if q.status[o] == Running then Error else q.status[o];
    forall o ensures o in r.queuedOrRunning <==> o in r.fifo || r.consumer == Busy(o) {
      assert o in r.queuedOrRunning <==> o in q.queuedOrRunning && !(o in q.status && q.status[o] == Running);
    }
  }

  lemma AppendTail(s: seq<string>, f: seq<string>)
    requires f != []
    ensures s + f == (s + [f[0]]) + f[1..]
  {
  }

  lemma CheckBacklogExact(c: Config, q: Queue)
    ensures FlagExact(c, CheckBacklog(c, q))
  {
  }

  lemma EnqueueKeepsInv(c: Config, w: World, o: string, now: real)
    requires Inv(c, w) && Accepts(c, w.q, o, now)
    ensures Inv(c, w.(q := Enqueue(c, w.q, o, now), clock := now, accepted := w.accepted + [o]))
  {
    if !w.q.consumer.Stopped? { EnqueueConsistent(c, w.q, o, now); }
    var q1 := w.q.(queuedOrRunning := w.q.queuedOrRunning + {o}, status := w.q.status[o := Queued]);
    CheckBacklogExact(c, q1);
    CheckBacklogFrame(c, q1);
    assert w.accepted + [o] == w.started + (w.q.fifo + [o]);
  }

  lemma TakeKeepsInv(c: Config, w: World)
    requires Inv(c, w) && w.q.consumer.Polling? && w.q.fifo != []
    ensures Inv(c, w.(q := Take(w.q), started := w.started + [w.q.fifo[0]]))
  {
    TakeConsistent(w.q);
    AppendTail(w.started, w.q.fifo);
  }

  lemma FinishKeepsInv(c: Config, w: World, at: Option<real>, clock: real)
    requires Inv(c, w) && w.q.consumer.Busy?
    ensures Inv(c, w.(q := Finish(c, w.q, at), clock := clock))
  {
    FinishConsistent(c, w.q, at);
    var q' := Finish(c, w.q, at);
    assert q'.fifo == w.q.fifo && q'.dead == w.q.dead && q'.consumer.Polling?;
    assert FlagExact(c, q');
  }

  lemma CrashKeepsInv(c: Config, w: World, stopping: bool)
    requires Inv(c, w) && !w.q.consumer.Stopped?
    ensures Inv(c, w.(q := Crash(c, w.q, stopping)))
  {
    var q' := Crash(c, w.q, stopping);
    if !q'.consumer.Stopped? { CrashConsistent(c, w.q, stopping); }
    assert q'.fifo == w.q.fifo;
    assert FlagExact(c, q');
  }

  lemma StepKeepsInv(c: Config, w: World, ev: Event)
    requires Inv(c, w) && Step(c, w, ev).Some?
    ensures Inv(c, Step(c, w, ev).value)
  {
    match ev {
      case Enqueued(o, now) =>
        if Accepts(c, w.q, o, now) { EnqueueKeepsInv(c, w, o, now); }
      case Took => TakeKeepsInv(c, w);
      case Finished(at) => FinishKeepsInv(c, w, at, if at.Some? then at.value else w.clock);
      case Crashed(stopping) => CrashKeepsInv(c, w, stopping);
      case Cancelled => assert FlagExact(c, Cancel(c, w.q));
      case Restarted =>
      case StopSeen =>
    }
  }

  lemma {:induction false} RunKeepsInv(c: Config, w: World, events: seq<Event>)
    requires Inv(c, w) && Run(c, w, events).Some?
    ensures Inv(c, Run(c, w, events).value)
    decreases |events|
  {
    if events != [] {
      StepKeepsInv(c, w, events[0]);
      RunKeepsInv(c, Step(c, w, events[0]).value, events[1..]);
    }
  }

  /** In every reachable state, across any crashes and restarts: the accepted enqueues are the
      started runs followed by the FIFO, so each is started at most once, in order, and none
      vanishes; those a dead queue can never start all show ERROR; the backlog flag is exact; and
      until the consumer is gone the FIFO has no duplicate owner, QUEUED means being in it, and the
      queued-or-running set is the FIFO plus the owner being run. */
  lemma ReachableQueue(c: Config, clock: real, events: seq<Event>)
    requires Run(c, Begin(clock), events).Some?
    ensures Inv(c, Run(c, Begin(clock), events).value)
  {
    RunKeepsInv(c, Begin(clock), events);
  }

  // ----- Cooldown

  /** The announced remaining cooldown is exact: it is what is left of the cooldown since the last
      success, and waiting it out, but no less, ends it. */
  lemma CooldownIsExact(c: Config, q: Queue, o: string, now: real, wait: real)
    requires wait >= 0.0
    ensures CooldownRemaining(c, q, o, now).Some? <==>
            && c.cooldown > 0.0 && o in q.status && q.status[o] == Done
            && o in q.doneAt && now < q.doneAt[o] + c.cooldown
    ensures CooldownRemaining(c, q, o, now).Some? ==>
              var left := CooldownRemaining(c, q, o, now).value;
              && left == q.doneAt[o] + c.cooldown - now
              && CooldownRemaining(c, q, o, now + wait) == if wait < left then Some(left - wait) else None
  {
  }

  /** When the owner of a finished run is accepted again: at once after a failure, and after a success
      exactly when the cooldown is off or has passed. */
  lemma FinishedOwnerAcceptedIff(c: Config, q: Queue, at: Option<real>, now: real)
    requires q.consumer.Busy? && !q.dead
    ensures Accepts(c, Finish(c, q, at), q.consumer.owner, now) <==>
            at.None? || c.cooldown <= 0.0 || now - at.value >= c.cooldown
  {
  }

  /** An owner whose last success is too recent can only be in state DONE. */
  ghost predicate Cooled(c: Config, w: World) {
    forall o | o in w.q.doneAt ::
      && w.q.doneAt[o] <= w.clock
      && (w.q.dead || (o in w.q.status && w.q.status[o] == Done) || w.q.doneAt[o] + c.cooldown <= w.clock)
  }

  lemma EnqueueCooled(c: Config, w: World, o: string, now: real)
    requires Cooled(c, w) && w.clock <= now
    ensures Cooled(c, w.(q := Enqueue(c, w.q, o, now), clock := now))
  {
    CheckBacklogFrame(c, w.q.(queuedOrRunning := w.q.queuedOrRunning + {o}, status := w.q.status[o := Queued]));
  }

  lemma FinishCooled(c: Config, w: World, at: Option<real>)
    requires Inv(c, w) && Cooled(c, w) && w.q.consumer.Busy? && (at.Some? ==> w.clock <= at.value)
    ensures Cooled(c, w.(q := Finish(c, w.q, at), clock := if at.Some? then at.value else w.clock))
  {
    var o := w.q.consumer.owner;
    assert w.q.status[o] == Running;
    var q' := Finish(c, w.q, at);
    assert q'.dead == w.q.dead && q'.status == w.q.status[o := if at.Some? then Done else Error];
    assert q'.doneAt == if at.Some? then w.q.doneAt[o := at.value] else w.q.doneAt;
  }

  lemma CrashCooled(c: Config, w: World, stopping: bool)
    requires Cooled(c, w)
    ensures Cooled(c, w.(q := Crash(c, w.q, stopping)))
  {
    var dying := w.q.restarts + 1 > c.maxRestarts;
    CheckBacklogFrame(c, Cleared(w.q, dying));
    var q' := Crash(c, w.q, stopping);
    assert q'.doneAt == w.q.doneAt && q'.status == AfterClear(w.q.status, dying);
    assert w.q.dead ==> q'.dead;
    forall o | o in w.q.doneAt && o in w.q.status && w.q.status[o] == Done ensures q'.status[o] == Done {
    }
  }

  lemma StepKeepsCooled(c: Config, w: World, ev: Event)
    requires Inv(c, w) && Cooled(c, w) && Step(c, w, ev).Some?
    ensures Cooled(c, Step(c, w, ev).value)
  {
    match ev {
      case Enqueued(o, now) => EnqueueCooled(c, w, o, now);
      case Took => assert w.q.status[w.q.fifo[0]] == Queued;
      case Finished(at) => FinishCooled(c, w, at);
      case Crashed(stopping) => CrashCooled(c, w, stopping);
      case Cancelled =>
      case Restarted =>
      case StopSeen =>
    }
  }

  lemma {:induction false} RunKeepsCooled(c: Config, w: World, events: seq<Event>)
    requires Inv(c, w) && Cooled(c, w) && Run(c, w, events).Some?
    ensures Inv(c, Run(c, w, events).value) && Cooled(c, Run(c, w, events).value)
    decreases |events|
  {
    if events != [] {
      StepKeepsInv(c, w, events[0]);
      StepKeepsCooled(c, w, events[0]);
      RunKeepsCooled(c, Step(c, w, events[0]).value, events[1..]);
    }
  }

  /** An accepted enqueue comes at least the cooldown after its owner's last successful run, even
      when failed or crashed runs lie between. */
  lemma AcceptedAfterCooldown(c: Config, clock: real, events: seq<Event>, o: string, now: real)
    requires Run(c, Begin(clock), events).Some?
    requires var w := Run(c, Begin(clock), events).value;
             w.clock <= now && Accepts(c, w.q, o, now) && o in w.q.doneAt
    ensures Run(c, Begin(clock), events).value.q.doneAt[o] + c.cooldown <= now
  {
    RunKeepsCooled(c, Begin(clock), events);
  }

  // ----- Restart budget and death

  /** Crashes since the last successful run. */
  function CrashStreak(events: seq<Event>): nat {
    if events == [] then 0
    else
      var (n, ev) := (|events| - 1, events[|events| - 1]);
      if ev.Crashed? then CrashStreak(events[..n]) + 1
      else if ev.Finished? && ev.at.Some? then 0
      else CrashStreak(events[..n])
  }

  lemma {:induction false} RunSnoc(c: Config, w: World, events: seq<Event>)
    requires events != [] && Run(c, w, events).Some?
    ensures var n := |events| - 1;
            && Run(c, w, events[..n]).Some?
            && Step(c, Run(c, w, events[..n]).value, events[n]) == Run(c, w, events)
    decreases |events|
  {
    var n := |events| - 1;
    if n == 0 {
      assert events[1..] == [] && events[..0] == [];
      assert Run(c, Step(c, w, events[0]).value, []) == Step(c, w, events[0]);
    } else {
      var v := Step(c, w, events[0]).value;
      RunSnoc(c, v, events[1..]);
      assert events[1..][..n - 1] == events[..n][1..];
      assert events[..n][0] == events[0];
    }
  }

  function Budget(c: Config): nat {
    if c.maxRestarts > 0 then c.maxRestarts else 0
  }

  /** What a step does to the restart counter, the death flag and the consumer. */
  predicate Control(c: Config, q: Queue, q': Queue, ev: Event) {
    if ev.Crashed? then
      var dying := q.restarts + 1 > c.maxRestarts;
      && !q.consumer.Stopped? && q'.restarts == q.restarts + 1
      && q'.dead == (q.dead || (dying && !ev.stopping))
      && (q'.consumer.Stopped? <==> dying || ev.stopping)
    else
      && q'.restarts == (if ev.Finished? && ev.at.Some? then 0 else q.restarts)
      && q'.dead == q.dead
      && (q.consumer.Stopped? ==> q'.consumer.Stopped?)
      && (ev.Finished? ==> !q.consumer.Stopped?)
  }

  lemma StepControl(c: Config, w: World, ev: Event)
    requires Step(c, w, ev).Some?
    ensures Control(c, w.q, Step(c, w, ev).value.q, ev)
  {
    match ev {
      case Crashed(stopping) => CheckBacklogFrame(c, Cleared(w.q, w.q.restarts + 1 > c.maxRestarts));
      case _ =>
    }
  }

  ghost predicate StreakOk(c: Config, q: Queue, events: seq<Event>) {
    && q.restarts == CrashStreak(events)
    && (q.dead ==> CrashStreak(events) == Budget(c) + 1 && q.consumer.Stopped?)
    && (!q.consumer.Stopped? ==> CrashStreak(events) <= Budget(c))
    && (CrashStreak(events) > Budget(c) ==> q.dead || Crashed(true) in events)
  }

  lemma StreakStep(c: Config, q: Queue, q': Queue, events: seq<Event>)
    requires events != [] && StreakOk(c, q, events[..|events| - 1]) && Control(c, q, q', events[|events| - 1])
    ensures StreakOk(c, q', events)
  {
    assert events == events[..|events| - 1] + [events[|events| - 1]];
  }

  /** The restart counter is the crash streak. A dead queue has seen exactly the budget plus one
      crashes with no successful run among them, and such a streak kills it unless a crash came
      while stopping. */
  lemma {:induction false} DeathByStreak(c: Config, clock: real, events: seq<Event>)
    requires Run(c, Begin(clock), events).Some?
    ensures StreakOk(c, Run(c, Begin(clock), events).value.q, events)
    decreases |events|
  {
    if events != [] {
      var n := |events| - 1;
      RunSnoc(c, Begin(clock), events);
      DeathByStreak(c, clock, events[..n]);
      var (w, w') := (Run(c, Begin(clock), events[..n]).value, Run(c, Begin(clock), events).value);
      StepControl(c, w, events[n]);
      StreakStep(c, w.q, w'.q, events);
    }
  }

  /** Death is permanent, and a dead queue refuses every enqueue. */
  lemma {:induction false} DeathIsPermanent(c: Config, w: World, events: seq<Event>, o: string, now: real)
    requires Inv(c, w) && w.q.dead && Run(c, w, events).Some?
    ensures var v := Run(c, w, events).value;
            && v.q.dead && v.accepted == w.accepted && v.started == w.started
            && !Accepts(c, v.q, o, now) && Enqueue(c, v.q, o, now).status[o] == Error
    decreases |events|
  {
    if events != [] {
      StepKeepsInv(c, w, events[0]);
      DeathIsPermanent(c, Step(c, w, events[0]).value, events[1..], o, now);
    }
  }
}
