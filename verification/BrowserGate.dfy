/**
 The browser gate: a semaphore per process in front of slot lock files that the processes share.
 The transition system interleaves the threads of any number of processes; an acquisition is a
 permit step and then a slot step, either of which can fail. A release unlocks the slot, closes its
 descriptor and gives the permit back, in this order; when the unlock or the close raises, the permit
 is not given back. A process can be killed anywhere, which drops its threads and makes the system
 release its file locks.
 */
module BrowserGate {
  import opened Wrappers

  /** `id` numbers the acquisitions of a process. */
  datatype Thread = Thread(process: nat, id: nat)

  /** A thread past the semaphore: looking for a slot, holding one (`None` in a process without a
      lock directory), between unlocking the slot and giving the permit back, or gone with a permit
      that is never given back, because its release raised: `slot` is still locked if the unlock did. */
  datatype Hold = Acquiring | Holding(slot: Option<nat>) | Releasing | Stuck(slot: Option<nat>)

  /** `capacity` is each process's `max_concurrent`, `shared` whether it was given the lock directory. */
  datatype Config = Config(capacity: nat -> nat, shared: nat -> bool)

  /** `permits` has an entry once a process has used its semaphore; `locks` maps a locked slot to
      the thread whose file descriptor holds it. */
  datatype Gate = Gate(permits: map<nat, int>, holds: map<Thread, Hold>, locks: map<nat, Thread>)

  function Permits(c: Config, g: Gate, p: nat): int {
    if p in g.permits then g.permits[p] else c.capacity(p)
  }

  datatype Step =
    | TakePermit(t: Thread)
    | LockSlot(t: Thread, slot: nat)
    | NeedNoSlot(t: Thread)
    | SlotFails(t: Thread)
    | Unlock(t: Thread)
    | ReleaseRaises(t: Thread, unlocked: bool)
    | GivePermit(t: Thread)
    | Kill(process: nat)

  predicate In(g: Gate, t: Thread, h: Hold) {
    t in g.holds && g.holds[t] == h
  }

  /** Whether a step can happen. A try-lock on a held slot changes nothing and is not a step. */
  predicate Enabled(c: Config, g: Gate, s: Step) {
    match s
    case TakePermit(t) => t !in g.holds && Permits(c, g, t.process) > 0
    case LockSlot(t, i) => In(g, t, Acquiring) && c.shared(t.process) && i < c.capacity(t.process) && i !in g.locks
    case NeedNoSlot(t) => In(g, t, Acquiring) && !c.shared(t.process)
    case SlotFails(t) => In(g, t, Acquiring)
    case Unlock(t) => t in g.holds && g.holds[t].Holding?
    case ReleaseRaises(t, _) => t in g.holds && g.holds[t].Holding? && g.holds[t].slot.Some?
    case GivePermit(t) => In(g, t, Releasing)
    case Kill(_) => true
  }

  function Return(c: Config, g: Gate, t: Thread): Gate {
    g.(permits := g.permits[t.process := Permits(c, g, t.process) + 1], holds := g.holds - {t})
  }

  function Next(c: Config, g: Gate, s: Step): Gate
    requires Enabled(c, g, s)
  {
    match s
    case TakePermit(t) =>
      g.(permits := g.permits[t.process := Permits(c, g, t.process) - 1], holds := g.holds[t := Acquiring])
    case LockSlot(t, i) => g.(holds := g.holds[t := Holding(Some(i))], locks := g.locks[i := t])
    case NeedNoSlot(t) => g.(holds := g.holds[t := Holding(None)])
    case SlotFails(t) => Return(c, g, t)
    case Unlock(t) =>
      var h := g.holds[t];
      g.(holds := g.holds[t := Releasing], locks := if h.slot.Some? then g.locks - {h.slot.value} else g.locks)
    case ReleaseRaises(t, unlocked) =>
      var slot := g.holds[t].slot;
      if unlocked then g.(holds := g.holds[t := Stuck(None)], locks := g.locks - {slot.value})
      else g.(holds := g.holds[t := Stuck(slot)])
    case GivePermit(t) => Return(c, g, t)
    case Kill(p) =>
      Gate(g.permits - {p},
           map t | t in g.holds && t.process != p :: g.holds[t],
           map i | i in g.locks && g.locks[i].process != p :: g.locks[i])
  }

  // ----- Invariant

  function Past(g: Gate, p: nat): set<Thread> {
    set t | t in g.holds && t.process == p
  }

  ghost predicate BalancedIn(c: Config, g: Gate, p: nat) {
    Permits(c, g, p) + |Past(g, p)| == c.capacity(p) && Permits(c, g, p) >= 0
  }

  /** In each process the free permits and the threads past the semaphore make up the capacity. */
  ghost predicate PermitsBalance(c: Config, g: Gate) {
    forall p: nat :: BalancedIn(c, g, p)
  }

  /** Slots and holders match one to one, and a holder's slot is one of its process's slots. */
  ghost predicate SlotsMatch(c: Config, g: Gate) {
    && (forall i | i in g.locks :: In(g, g.locks[i], Holding(Some(i))) || In(g, g.locks[i], Stuck(Some(i))))
    && (forall t | t in g.holds && g.holds[t].Holding? ::
          match g.holds[t].slot {
            case Some(i) => i in g.locks && g.locks[i] == t && i < c.capacity(t.process)
            case None => !c.shared(t.process)
          })
    && (forall t | t in g.holds && g.holds[t].Stuck? && g.holds[t].slot.Some? ::
          var i := g.holds[t].slot.value; i in g.locks && g.locks[i] == t)
  }

  ghost predicate Inv(c: Config, g: Gate) {
    PermitsBalance(c, g) && SlotsMatch(c, g)
  }

  lemma PermitsAfterTake(c: Config, g: Gate, t: Thread)
    requires Enabled(c, g, TakePermit(t)) && BalancedIn(c, g, t.process)
    ensures BalancedIn(c, Next(c, g, TakePermit(t)), t.process)
  {
    assert Past(Next(c, g, TakePermit(t)), t.process) == Past(g, t.process) + {t};
  }

  lemma PermitsAfterReturn(c: Config, g: Gate, t: Thread)
    requires t in g.holds && BalancedIn(c, g, t.process)
    ensures BalancedIn(c, Return(c, g, t), t.process)
  {
    assert Past(Return(c, g, t), t.process) == Past(g, t.process) - {t};
  }

  lemma PermitsAfterKill(c: Config, g: Gate, p: nat)
    ensures BalancedIn(c, Next(c, g, Kill(p)), p)
  {
    assert Past(Next(c, g, Kill(p)), p) == {};
  }

  /** A step that neither takes nor returns a permit of `p`, nor kills it, leaves its threads past
      the semaphore the same. */
  lemma PastUnchanged(c: Config, g: Gate, s: Step, p: nat)
    requires Enabled(c, g, s)
    requires s.Kill? ==> s.process != p
    requires s.TakePermit? || s.SlotFails? || s.GivePermit? ==> s.t.process != p
    ensures Past(Next(c, g, s), p) == Past(g, p)
  {
  }

  lemma PermitsAfterIn(c: Config, g: Gate, s: Step, p: nat)
    requires Enabled(c, g, s) && BalancedIn(c, g, p)
    ensures BalancedIn(c, Next(c, g, s), p)
  {
    if s.Kill? && s.process == p {
      PermitsAfterKill(c, g, p);
    } else if s.TakePermit? && s.t.process == p {
      PermitsAfterTake(c, g, s.t);
    } else if (s.SlotFails? || s.GivePermit?) && s.t.process == p {
      PermitsAfterReturn(c, g, s.t);
    } else {
      PastUnchanged(c, g, s, p);
      assert Permits(c, Next(c, g, s), p) == Permits(c, g, p);
    }
  }

  lemma PermitsAfter(c: Config, g: Gate, s: Step)
    requires PermitsBalance(c, g) && Enabled(c, g, s)
    ensures PermitsBalance(c, Next(c, g, s))
  {
    forall p: nat ensures BalancedIn(c, Next(c, g, s), p) {
      PermitsAfterIn(c, g, s, p);
    }
  }

  lemma SlotsAfterLock(c: Config, g: Gate, t: Thread, i: nat)
    requires SlotsMatch(c, g) && Enabled(c, g, LockSlot(t, i))
    ensures SlotsMatch(c, Next(c, g, LockSlot(t, i)))
  {
  }

  lemma SlotsAfterUnlock(c: Config, g: Gate, t: Thread)
    requires SlotsMatch(c, g) && Enabled(c, g, Unlock(t))
    ensures SlotsMatch(c, Next(c, g, Unlock(t)))
  {
  }

  lemma SlotsAfterRaise(c: Config, g: Gate, t: Thread, unlocked: bool)
    requires SlotsMatch(c, g) && Enabled(c, g, ReleaseRaises(t, unlocked))
    ensures SlotsMatch(c, Next(c, g, ReleaseRaises(t, unlocked)))
  {
  }

  lemma SlotsAfterKill(c: Config, g: Gate, p: nat)
    requires SlotsMatch(c, g)
    ensures SlotsMatch(c, Next(c, g, Kill(p)))
  {
  }

  lemma SlotsAfter(c: Config, g: Gate, s: Step)
    requires SlotsMatch(c, g) && Enabled(c, g, s)
    ensures SlotsMatch(c, Next(c, g, s))
  {
    match s {
      case LockSlot(t, i) => SlotsAfterLock(c, g, t, i);
      case Unlock(t) => SlotsAfterUnlock(c, g, t);
      case ReleaseRaises(t, unlocked) => SlotsAfterRaise(c, g, t, unlocked);
      case Kill(p) => SlotsAfterKill(c, g, p);
      case _ =>
    }
  }

  lemma StepKeepsInv(c: Config, g: Gate, s: Step)
    requires Inv(c, g) && Enabled(c, g, s)
    ensures Inv(c, Next(c, g, s))
  {
    PermitsAfter(c, g, s);
    SlotsAfter(c, g, s);
  }

  function Start(): Gate {
    Gate(map[], map[], map[])
  }

  ghost predicate Reaches(c: Config, g: Gate, steps: seq<Step>, g': Gate)
    decreases |steps|
  {
    if steps == [] then g' == g
    else Enabled(c, g, steps[0]) && Reaches(c, Next(c, g, steps[0]), steps[1..], g')
  }

  lemma {:induction false} RunKeepsInv(c: Config, g: Gate, steps: seq<Step>, g': Gate)
    requires Inv(c, g) && Reaches(c, g, steps, g')
    ensures Inv(c, g')
    decreases |steps|
  {
    if steps != [] {
      StepKeepsInv(c, g, steps[0]);
      RunKeepsInv(c, Next(c, g, steps[0]), steps[1..], g');
    }
  }

  lemma StartInv(c: Config)
    ensures Inv(c, Start())
  {
    forall p: nat ensures Past(Start(), p) == {} {
    }
  }

  // ----- The bounds

  /** The threads of sharing processes that hold a browser. */
  function Holders(c: Config, g: Gate): set<Thread> {
    set t | t in g.holds && g.holds[t].Holding? && c.shared(t.process)
  }

  lemma {:induction false} HoldersBoundedBySlots(
    holders: set<Thread>, slotOf: map<Thread, nat>, n: nat)
    requires forall t | t in holders :: t in slotOf && slotOf[t] < n
    requires forall t, u | t in holders && u in holders && slotOf[t] == slotOf[u] :: t == u
    ensures |holders| <= n
    decreases n
  {
    if n == 0 {
      assert holders == {};
    } else if t :| t in holders && slotOf[t] == n - 1 {
      HoldersBoundedBySlots(holders - {t}, slotOf, n - 1);
      assert holders == (holders - {t}) + {t};
    } else {
      HoldersBoundedBySlots(holders, slotOf, n - 1);
    }
  }

  /** Over every interleaving, with failures and kills: if no process's capacity exceeds `n`, at most
      `n` browsers are held across all processes that share the lock directory. */
  lemma AtMostNBrowsers(c: Config, steps: seq<Step>, g: Gate, n: nat)
    requires Reaches(c, Start(), steps, g)
    requires forall p: nat :: c.capacity(p) <= n
    ensures |Holders(c, g)| <= n
  {
    StartInv(c);
    RunKeepsInv(c, Start(), steps, g);
    var holders := Holders(c, g);
    var slotOf := map t | t in holders :: (match g.holds[t].slot case Some(i) => i case None => 0);
    HoldersBoundedBySlots(holders, slotOf, n);
  }

  /** In each process the free permits and the threads past the semaphore always make up the
      capacity, so a release never overfills the bounded semaphore. */
  lemma PermitsConserved(c: Config, steps: seq<Step>, g: Gate, p: nat)
    requires Reaches(c, Start(), steps, g)
    ensures 0 <= Permits(c, g, p) == c.capacity(p) - |Past(g, p)|
  {
    StartInv(c);
    RunKeepsInv(c, Start(), steps, g);
    assert BalancedIn(c, g, p);
  }

  /** No permit is withheld: a new acquisition gets one at once if and only if fewer than
      `max_concurrent` threads of the process are past the semaphore. */
  lemma PermitIffRoom(c: Config, steps: seq<Step>, g: Gate, t: Thread)
    requires Reaches(c, Start(), steps, g) && t !in g.holds
    ensures Enabled(c, g, TakePermit(t)) <==> |Past(g, t.process)| < c.capacity(t.process)
  {
    PermitsConserved(c, steps, g, t.process);
  }

  /** Nor is a slot: an acquiring thread can lock slot `i` if and only if no thread of any process holds
      it or left it locked. */
  lemma SlotIffUnheld(c: Config, steps: seq<Step>, g: Gate, t: Thread, i: nat)
    requires Reaches(c, Start(), steps, g) && In(g, t, Acquiring) && c.shared(t.process) && i < c.capacity(t.process)
    ensures Enabled(c, g, LockSlot(t, i)) <==>
            !exists u | u in g.holds :: g.holds[u] == Holding(Some(i)) || g.holds[u] == Stuck(Some(i))
  {
    StartInv(c);
    RunKeepsInv(c, Start(), steps, g);
    if i in g.locks {
      assert g.locks[i] in g.holds;
    }
  }

  function StuckIn(g: Gate, p: nat): set<Thread> {
    set t | t in Past(g, p) && g.holds[t].Stuck?
  }

  /** A release of process `p` raised, and `p` was not killed afterwards. */
  predicate Raised(steps: seq<Step>, p: nat) {
    exists i | 0 <= i < |steps| ::
      steps[i].ReleaseRaises? && steps[i].t.process == p && forall j | i < j < |steps| :: steps[j] != Kill(p)
  }

  lemma RaisedCons(steps: seq<Step>, p: nat)
    requires steps != []
    ensures Raised(steps, p) <==>
            || Raised(steps[1..], p)
            || (steps[0].ReleaseRaises? && steps[0].t.process == p && Kill(p) !in steps[1..])
  {
    var rest := steps[1..];
    if i :| 0 <= i < |steps| && steps[i].ReleaseRaises? && steps[i].t.process == p
            && forall j | i < j < |steps| :: steps[j] != Kill(p) {
      if i > 0 {
        assert rest[i - 1] == steps[i];
        assert forall j | i - 1 < j < |rest| :: rest[j] == steps[j + 1];
      }
    }
    if i :| 0 <= i < |rest| && rest[i].ReleaseRaises? && rest[i].t.process == p
            && forall j | i < j < |rest| :: rest[j] != Kill(p) {
      assert steps[i + 1] == rest[i];
      assert forall j | i + 1 < j < |steps| :: steps[j] == rest[j - 1];
    }
  }

  /** One step's effect on the stuck threads of a process. */
  lemma StuckAfter(c: Config, g: Gate, s: Step, p: nat)
    requires Enabled(c, g, s)
    ensures StuckIn(Next(c, g, s), p) ==
            if s == Kill(p) then {}
            else if s.ReleaseRaises? && s.t.process == p then StuckIn(g, p) + {s.t}
            else StuckIn(g, p)
  {
  }

  lemma {:induction false} StuckIffRaised(c: Config, g: Gate, steps: seq<Step>, g': Gate, p: nat)
    requires Reaches(c, g, steps, g')
    ensures StuckIn(g', p) != {} <==> Raised(steps, p) || (StuckIn(g, p) != {} && Kill(p) !in steps)
    decreases |steps|
  {
    if steps != [] {
      var g1 := Next(c, g, steps[0]);
      StuckIffRaised(c, g1, steps[1..], g', p);
      RaisedCons(steps, p);
      StuckAfter(c, g, steps[0], p);
      assert Kill(p) in steps <==> Kill(p) == steps[0] || Kill(p) in steps[1..];
      if steps[0].ReleaseRaises? && steps[0].t.process == p {
        assert steps[0].t in StuckIn(g1, p);
      }
      if steps[0] == Kill(p) {
        assert StuckIn(g1, p) == {};
      }
    }
  }

  /** A process whose threads have all left the gate has every permit back if and only if no release of
      it has raised since it started. Failed and timed out acquisitions leak nothing. */
  lemma AllPermitsBackIff(c: Config, steps: seq<Step>, g: Gate, p: nat)
    requires Reaches(c, Start(), steps, g)
    requires forall t | t in g.holds && t.process == p :: g.holds[t].Stuck?
    ensures Permits(c, g, p) == c.capacity(p) <==> !Raised(steps, p)
  {
    PermitsConserved(c, steps, g, p);
    StuckIffRaised(c, Start(), steps, g, p);
    assert StuckIn(g, p) == Past(g, p);
    assert StuckIn(Start(), p) == {};
  }

  // ----- Composing runs

  lemma ReachesOne(c: Config, g: Gate, s: Step)
    requires Enabled(c, g, s)
    ensures Reaches(c, g, [s], Next(c, g, s))
  {
    assert Reaches(c, Next(c, g, s), [s][1..], Next(c, g, s));
  }

  lemma {:induction false} ReachesAppend(c: Config, g: Gate, a: seq<Step>, mid: Gate, b: seq<Step>, g': Gate)
    requires Reaches(c, g, a, mid) && Reaches(c, mid, b, g')
    ensures Reaches(c, g, a + b, g')
    decreases |a|
  {
    if a == [] {
      assert a + b == b;
    } else {
      assert (a + b)[1..] == a[1..] + b;
      ReachesAppend(c, Next(c, g, a[0]), a[1..], mid, b, g');
    }
  }

  /** The step is taken by a process other than `p`, or is its kill. */
  predicate Elsewhere(s: Step, p: nat) {
    if s.Kill? then s.process != p else s.t.process != p
  }

  /** What the threads and permits of `p` look like is not touched by other processes. */
  lemma {:induction false} OthersKeep(c: Config, g: Gate, steps: seq<Step>, g': Gate, t: Thread)
    requires Reaches(c, g, steps, g') && forall s | s in steps :: Elsewhere(s, t.process)
    ensures Permits(c, g', t.process) == Permits(c, g, t.process)
    ensures t in g'.holds <==> t in g.holds
    ensures t in g.holds ==> g'.holds[t] == g.holds[t]
    decreases |steps|
  {
    if steps != [] {
      assert steps[0] in steps && forall s | s in steps[1..] :: s in steps;
      OthersKeep(c, Next(c, g, steps[0]), steps[1..], g', t);
    }
  }

  /** The leak on a run: one acquisition of a gate of one slot whose release raises, and the process
      has no permit left though no thread of it is inside. */
  lemma OneRaisingReleaseBlocksTheGate(t: Thread, unlocked: bool)
    ensures var c := Config(_ => 1, _ => true);
            var g := Gate(map[t.process := 0], map[t := Stuck(if unlocked then None else Some(0))],
                          if unlocked then map[] else map[0 := t]);
            && Reaches(c, Start(), [TakePermit(t), LockSlot(t, 0), ReleaseRaises(t, unlocked)], g)
            && Permits(c, g, t.process) == 0
            && !Enabled(c, g, TakePermit(Thread(t.process, t.id + 1)))
  {
    var c := Config(_ => 1, _ => true);
    var g1 := Next(c, Start(), TakePermit(t));
    var g2 := Next(c, g1, LockSlot(t, 0));
    var g3 := Next(c, g2, ReleaseRaises(t, unlocked));
    ReachesOne(c, g2, ReleaseRaises(t, unlocked));
    ReachesOne(c, g1, LockSlot(t, 0));
    ReachesOne(c, Start(), TakePermit(t));
    ReachesAppend(c, Start(), [TakePermit(t)], g1, [LockSlot(t, 0)], g2);
    ReachesAppend(c, Start(), [TakePermit(t)] + [LockSlot(t, 0)], g2, [ReleaseRaises(t, unlocked)], g3);
    assert [TakePermit(t)] + [LockSlot(t, 0)] + [ReleaseRaises(t, unlocked)]
        == [TakePermit(t), LockSlot(t, 0), ReleaseRaises(t, unlocked)];
    assert g3.permits == map[t.process := 0];
    assert g3.holds == map[t := Stuck(if unlocked then None else Some(0))];
    assert g3.locks == if unlocked then map[] else map[0 := t];
  }

  // ----- The gate object

  datatype Try = Locked | HeldElsewhere | Failed

  datatype Acquired = Slot(round: nat, slot: nat) | NoSlot | SlotError | TimedOut

  /** The step that ends the slot side of an acquisition. */
  function SlotStep(t: Thread, a: Acquired): Step {
    match a
    case Slot(_, i) => LockSlot(t, i)
    case NoSlot => NeedNoSlot(t)
    case _ => SlotFails(t)
  }

  /** From one step of a thread, through steps of other processes, to its next step. */
  lemma TwoSteps(c: Config, g: Gate, first: Step, others: seq<Step>, mid: Gate, last: Step)
    requires Enabled(c, g, first) && Reaches(c, Next(c, g, first), others, mid) && Enabled(c, mid, last)
    ensures Reaches(c, g, [first] + others + [last], Next(c, mid, last))
  {
    ReachesOne(c, g, first);
    ReachesAppend(c, g, [first], Next(c, g, first), others, mid);
    ReachesOne(c, mid, last);
    ReachesAppend(c, g, [first] + others, mid, [last], Next(c, mid, last));
  }

  class ProcessGate {
    const maxConcurrent: nat
    const shared: bool
    var permits: int

    constructor (maxConcurrent: nat, shared: bool)
      ensures this.maxConcurrent == maxConcurrent && this.shared == shared && permits == maxConcurrent
    {
      this.maxConcurrent, this.shared, permits := maxConcurrent, shared, maxConcurrent;
    }

    /** The object is process `p` of the transition system in state `g`. */
    ghost predicate Is(c: Config, g: Gate, p: nat)
      reads this
    {
      permits == Permits(c, g, p) && maxConcurrent == c.capacity(p) && shared == c.shared(p)
    }

    /** Every slot was found held in the rounds before `round` and in this one before `slot`, and no
        earlier round ended past the deadline. */
    static ghost predicate AllHeldBefore(n: nat, attempt: (nat, nat) -> Try, late: nat -> bool, round: nat, slot: nat) {
      && (forall r, i | 0 <= r < round && 0 <= i < n :: attempt(r, i) == HeldElsewhere)
      && (forall i | 0 <= i < slot :: attempt(round, i) == HeldElsewhere)
      && (forall r | 0 <= r < round :: !late(r))
    }

    /** The polling loop over the slot files: `attempt(r, i)` is the try-lock of slot `i` in round `r`,
        `late(r)` whether the deadline has passed at the end of round `r`. Polling ends by round `last`. */
    method AcquireSlot(attempt: (nat, nat) -> Try, late: nat -> bool, last: nat) returns (a: Acquired)
      requires late(last) || exists i | 0 <= i < maxConcurrent :: attempt(last, i) != HeldElsewhere
      ensures a.Slot? ==> a.slot < maxConcurrent && attempt(a.round, a.slot) == Locked
                          && AllHeldBefore(maxConcurrent, attempt, late, a.round, a.slot)
      ensures a.SlotError? ==> exists r, i :: 0 <= r && 0 <= i < maxConcurrent && attempt(r, i) == Failed
                                              && AllHeldBefore(maxConcurrent, attempt, late, r, i)
      ensures a.TimedOut? ==> exists r :: 0 <= r && late(r)
                                          && AllHeldBefore(maxConcurrent, attempt, late, r, maxConcurrent)
      ensures !a.NoSlot?
    {
      var round := 0;
      while true
        invariant 0 <= round <= last
        invariant AllHeldBefore(maxConcurrent, attempt, late, round, 0)
        decreases last - round
      {
        var i := 0;
        while i < maxConcurrent
          invariant 0 <= i <= maxConcurrent
          invariant AllHeldBefore(maxConcurrent, attempt, late, round, i)
        {
          match attempt(round, i) {
            case Locked => return Slot(round, i);
            case Failed => return SlotError;
            case HeldElsewhere =>
          }
          i := i + 1;
        }
        if late(round) {
          return TimedOut;
        }
        round := round + 1;
      }
    }

    /** `acquire`: a permit, then a slot; a failure of the slot side gives the permit back. `granted` is
        whether the semaphore yields a permit before its timeout; `others` is what other processes
        do meanwhile, up to the state `mid` of the last try. The steps are a run of the transition
        system that ends with this thread holding what is returned, or outside the gate. */
    method Acquire(granted: bool, attempt: (nat, nat) -> Try, late: nat -> bool, last: nat,
                   ghost c: Config, ghost g: Gate, ghost t: Thread, ghost others: seq<Step>, ghost mid: Gate)
      returns (a: Acquired, ghost steps: seq<Step>, ghost g': Gate)
      requires granted ==> permits > 0
      requires late(last) || exists i | 0 <= i < maxConcurrent :: attempt(last, i) != HeldElsewhere
      requires Is(c, g, t.process) && t !in g.holds
      requires forall s | s in others :: Elsewhere(s, t.process)
      requires granted ==> Reaches(c, Next(c, g, TakePermit(t)), others, mid)
      requires forall r, i | 0 <= r && 0 <= i && attempt(r, i) == Locked :: i !in mid.locks
      modifies this
      ensures a.Slot? || a.NoSlot? ==> granted && permits == old(permits) - 1
      ensures a.SlotError? || a.TimedOut? ==> permits == old(permits)
      ensures a.NoSlot? <==> granted && !shared
      ensures a.Slot? ==> shared && a.slot < maxConcurrent && attempt(a.round, a.slot) == Locked
                          && AllHeldBefore(maxConcurrent, attempt, late, a.round, a.slot)
      ensures steps == if granted then [TakePermit(t)] + others + [SlotStep(t, a)] else []
      ensures Reaches(c, g, steps, g') && Is(c, g', t.process)
      ensures a.Slot? ==> In(g', t, Holding(Some(a.slot)))
      ensures a.NoSlot? ==> In(g', t, Holding(None))
      ensures a.SlotError? || a.TimedOut? ==> t !in g'.holds
    {
      if !granted {
        return TimedOut, [], g;
      }
      OthersKeep(c, Next(c, g, TakePermit(t)), others, mid, t);
      permits := permits - 1;
      if !shared {
        a := NoSlot;
      } else {
        a := AcquireSlot(attempt, late, last);
        if !a.Slot? {
          permits := permits + 1;
        }
      }
      TwoSteps(c, g, TakePermit(t), others, mid, SlotStep(t, a));
      steps, g' := [TakePermit(t)] + others + [SlotStep(t, a)], Next(c, mid, SlotStep(t, a));
    }

    /** `release`, which keeps the permit when unlocking (`unlocked` is false) or closing the slot file
        raises. */
    method Release(slot: Option<nat>, raises: bool, ghost unlocked: bool,
                   ghost c: Config, ghost g: Gate, ghost t: Thread, ghost others: seq<Step>, ghost mid: Gate)
      returns (raised: bool, ghost steps: seq<Step>, ghost g': Gate)
      requires Is(c, g, t.process) && In(g, t, Holding(slot))
      requires forall s | s in others :: Elsewhere(s, t.process)
      requires Reaches(c, Next(c, g, Unlock(t)), others, mid)
      modifies this
      ensures raised <==> slot.Some? && raises
      ensures permits == old(permits) + if raised then 0 else 1
      ensures steps == if raised then [ReleaseRaises(t, unlocked)] else [Unlock(t)] + others + [GivePermit(t)]
      ensures Reaches(c, g, steps, g') && Is(c, g', t.process)
      ensures if raised then In(g', t, Stuck(if unlocked then None else slot)) else t !in g'.holds
    {
      if slot.Some? && raises {
        ReachesOne(c, g, ReleaseRaises(t, unlocked));
        return true, [ReleaseRaises(t, unlocked)], Next(c, g, ReleaseRaises(t, unlocked));
      }
      OthersKeep(c, Next(c, g, Unlock(t)), others, mid, t);
      TwoSteps(c, g, Unlock(t), others, mid, GivePermit(t));
      permits := permits + 1;
      raised := false;
      steps, g' := [Unlock(t)] + others + [GivePermit(t)], Next(c, mid, GivePermit(t));
    }
  }
}
