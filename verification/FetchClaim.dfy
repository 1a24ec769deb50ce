/**
 The race between the thread that drives a browser and the caller's deadline, in the browser and
 the camoufox tier, with the process-wide count of abandoned fetch threads. Every block under a
 lock is one step, and any number of fetches interleave. The two tiers differ in the order of the
 driving thread's last steps: the browser tier claims, stores or cleans up, and then reports that
 it has finished; the camoufox tier reports first. What the drivers do, and which processes a kill
 reaches, is left open.
 */
module FetchClaim {
  import opened Wrappers

  /** `psutil` is whether that module can be imported: without it the browser tier cannot wait for the
      driving thread after a kill and takes the kill's word for its end. */
  datatype Tier = Browser(psutil: bool) | Camoufox

  /** The driving thread. */
  datatype Owner = NotStarted | Driving | Claiming | Storing | CleaningUp | Reporting | Exited

  /** The calling thread, once past the ceiling check. `Trying` has seen the driving thread alive and
      is about to claim; `Counting` has won the claim; `Joining` waits for the driving thread. */
  datatype Caller = Checked | Watching | Trying | Counting | Joining | TimedOut | Returned | LeftEarly

  datatype Side = OwnerSide | CallerSide

  datatype Fetch = Fetch(
    owner: Owner, caller: Caller, claimed: Option<Side>, holder: bool, finished: bool, counted: bool)

  datatype Action =
    | StartThread
    | Leave
    | DriveEnds
    | OwnerClaims
    | OwnerStores
    | OwnerCleansUp
    | OwnerReports
    | CallerSeesAlive
    | CallerSeesDead
    | CallerClaims
    | CallerWatchesOn
    | CallerCounts
    | CallerSeesEnd
    | CallerTrustsKill
    | CallerReads

  /** Where the driving thread goes after storing its outcome or cleaning up. */
  function AfterClaim(tier: Tier): Owner {
    if tier.Browser? then Reporting else Exited
  }

  /** One step of one fetch, if it is enabled. */
  function Local(tier: Tier, x: Fetch, a: Action): Option<Fetch> {
    match (a, x.owner, x.caller)
    case (StartThread, NotStarted, Checked) => Some(x.(owner := Driving, caller := Watching))
    case (Leave, NotStarted, Checked) => Some(x.(caller := LeftEarly))
    case (DriveEnds, Driving, _) => Some(x.(owner := if tier.Browser? then Claiming else Reporting))
    case (OwnerClaims, Claiming, _) =>
      if x.claimed.None? then Some(x.(claimed := Some(OwnerSide), owner := Storing))
      else Some(x.(owner := CleaningUp))
    case (OwnerStores, Storing, _) => Some(x.(holder := true, owner := AfterClaim(tier)))
    case (OwnerCleansUp, CleaningUp, _) => Some(x.(owner := AfterClaim(tier)))
    case (OwnerReports, Reporting, _) =>
      Some(x.(finished := true, owner := if tier.Browser? then Exited else Claiming))
    case (CallerSeesAlive, _, Watching) => if x.owner != Exited then Some(x.(caller := Trying)) else None
    case (CallerSeesDead, Exited, Watching) => Some(x.(caller := Joining))
    case (CallerClaims, _, Trying) =>
      if x.claimed.None? then Some(x.(claimed := Some(CallerSide), caller := Counting))
      else Some(x.(caller := Joining))
    case (CallerWatchesOn, _, Trying) =>
      // The browser tier's polling loop goes on after a lost claim.
      if tier.Browser? && x.claimed.Some? then Some(x.(caller := Watching)) else None
    case (CallerCounts, _, Counting) => Some(x.(counted := !x.finished, caller := TimedOut))
    case (CallerSeesEnd, Exited, Counting) =>
      // The browser tier waits a grace period after its kill and counts only a thread still alive.
      if tier.Browser? then Some(x.(caller := TimedOut)) else None
    case (CallerTrustsKill, _, Counting) =>
      if tier == Browser(false) then Some(x.(caller := TimedOut)) else None
    case (CallerReads, Exited, Joining) => Some(x.(caller := Returned))
    case _ => None
  }

  /** The change of the global count made in the same locked block. */
  function Delta(x: Fetch, a: Action): int {
    if a.CallerCounts? && !x.finished then 1
    else if a.OwnerReports? && x.counted then -1
    else 0
  }

  /** `ceiling` is the limit of the check, `callers` the number of threads that may be inside
      `fetch` past it at once. */
  datatype Config = Config(tier: Tier, ceiling: int, callers: nat)

  datatype World = World(count: int, fetches: map<nat, Fetch>)

  datatype Step = Enter(id: nat) | Act(id: nat, action: Action)

  function Fresh(): Fetch {
    Fetch(NotStarted, Checked, None, false, false, false)
  }

  /** A caller past the check that has not left `fetch` yet. */
  predicate Inside(x: Fetch) {
    x.caller !in {TimedOut, Returned, LeftEarly}
  }

  /** A thread that was counted and is still alive. */
  predicate Abandoned(x: Fetch) {
    x.counted && !x.finished
  }

  function InsideSet(w: World): set<nat> {
    set f | f in w.fetches && Inside(w.fetches[f])
  }

  function AbandonedSet(w: World): set<nat> {
    set f | f in w.fetches && Abandoned(w.fetches[f])
  }

  function Next(c: Config, w: World, s: Step): Option<World> {
    match s
    case Enter(f) =>
      if f !in w.fetches && w.count < c.ceiling && |InsideSet(w)| < c.callers
      then Some(w.(fetches := w.fetches[f := Fresh()])) else None
    case Act(f, a) =>
      if f !in w.fetches || Local(c.tier, w.fetches[f], a).None? then None
      else
        var x := w.fetches[f];
        Some(World(w.count + Delta(x, a), w.fetches[f := Local(c.tier, x, a).value]))
  }

  function Run(c: Config, w: World, steps: seq<Step>): Option<World>
    decreases |steps|
  {
    if steps == [] then Some(w)
    else
      match Next(c, w, steps[0])
      case None => None
      case Some(v) => Run(c, v, steps[1..])
  }

  // ----- One fetch

  /** The driving thread is past its claim. */
  predicate PastClaim(tier: Tier, o: Owner) {
    o in {Storing, CleaningUp, Exited} || (tier.Browser? && o == Reporting)
  }

  predicate PastReport(tier: Tier, o: Owner) {
    o == Exited || (tier.Camoufox? && o in {Claiming, Storing, CleaningUp})
  }

  ghost predicate Ok(tier: Tier, x: Fetch) {
    && (x.owner == NotStarted <==> x.caller in {Checked, LeftEarly})
    && (PastClaim(tier, x.owner) ==> x.claimed.Some?)
    && (x.claimed == Some(OwnerSide) ==> PastClaim(tier, x.owner))
    && (x.owner == Storing ==> x.claimed == Some(OwnerSide))
    && (x.owner == CleaningUp ==> x.claimed == Some(CallerSide))
    && (x.holder <==> x.claimed == Some(OwnerSide) && x.owner != Storing)
    && (x.claimed == Some(CallerSide) <==> x.caller in {Counting, TimedOut})
    && (x.caller in {Joining, Returned} ==> x.claimed == Some(OwnerSide))
    && (x.caller == Returned ==> x.owner == Exited)
    && (x.finished <==> PastReport(tier, x.owner))
    && (x.counted ==> x.caller == TimedOut)
    && (tier != Browser(false) && x.caller == TimedOut ==> x.counted || x.finished)
  }

  /** Some step of the fetch that can happen while its caller waits or its driving thread runs. */
  function Ready(x: Fetch): Action {
    match x.owner
    case NotStarted => StartThread
    case Driving => DriveEnds
    case Claiming => OwnerClaims
    case Storing => OwnerStores
    case CleaningUp => OwnerCleansUp
    case Reporting => OwnerReports
    case Exited =>
      match x.caller
      case Trying => CallerClaims
      case Counting => CallerCounts
      case Joining => CallerReads
      case _ => CallerSeesDead
  }

  /** No fetch gets stuck: as long as its caller is inside or its driving thread alive, it can step. */
  lemma NoFetchIsStuck(tier: Tier, x: Fetch)
    requires Ok(tier, x) && (Inside(x) || x.owner !in {NotStarted, Exited})
    ensures Local(tier, x, Ready(x)).Some?
  {
  }

  function Bit(b: bool): int {
    if b then 1 else 0
  }

  /** A step keeps the invariant, never changes a claim once made, moves the abandoned flag by the
      counted amount, and never puts a caller back inside. */
  lemma LocalKeepsOk(tier: Tier, x: Fetch, a: Action)
    requires Ok(tier, x) && Local(tier, x, a).Some?
    ensures var y := Local(tier, x, a).value;
            && Ok(tier, y)
            && (x.claimed.Some? ==> y.claimed == x.claimed)
            && Bit(Abandoned(y)) == Bit(Abandoned(x)) + Delta(x, a)
            && (Inside(y) ==> Inside(x))
            && (Delta(x, a) == 1 ==> Inside(x) && !Inside(y))
            && (a.CallerReads? ==> x.holder)
  {
    assert x.claimed.Some? ==> x.claimed.value.OwnerSide? || x.claimed.value.CallerSide?;
  }

  // ----- All fetches

  ghost predicate Inv(c: Config, w: World) {
    && (forall f | f in w.fetches :: Ok(c.tier, w.fetches[f]))
    && w.count == |AbandonedSet(w)|
    && |InsideSet(w)| <= c.callers
    && (c.ceiling < 1 ==> w.fetches == map[])
    && (c.ceiling >= 1 ==>
          w.count <= c.ceiling - 1 || w.count + |InsideSet(w)| <= c.ceiling - 1 + c.callers)
  }

  /** Replacing one member of a family changes the size of a selected set by that member's change. */
  lemma ResizeBy(a: set<nat>, b: set<nat>, f: nat)
    requires forall g | g != f :: g in a <==> g in b
    ensures |b| == |a| + Bit(f in b) - Bit(f in a)
  {
    var rest := a - {f};
    assert a == rest + (if f in a then {f} else {});
    assert b == rest + (if f in b then {f} else {});
  }

  lemma SizesAfter(c: Config, w: World, s: Step)
    requires (forall f | f in w.fetches :: Ok(c.tier, w.fetches[f])) && Next(c, w, s).Some?
    ensures var v := Next(c, w, s).value;
            if s.Enter? then |AbandonedSet(v)| == |AbandonedSet(w)| && |InsideSet(v)| == |InsideSet(w)| + 1
            else
              var (x, y) := (w.fetches[s.id], v.fetches[s.id]);
              && |AbandonedSet(v)| == |AbandonedSet(w)| + Delta(x, s.action)
              && |InsideSet(v)| == |InsideSet(w)| + Bit(Inside(y)) - Bit(Inside(x))
  {
    var v := Next(c, w, s).value;
    ResizeBy(AbandonedSet(w), AbandonedSet(v), s.id);
    ResizeBy(InsideSet(w), InsideSet(v), s.id);
    if s.Act? {
      LocalKeepsOk(c.tier, w.fetches[s.id], s.action);
    }
  }

  lemma NextKeepsInv(c: Config, w: World, s: Step)
    requires Inv(c, w) && Next(c, w, s).Some?
    ensures Inv(c, Next(c, w, s).value)
  {
    SizesAfter(c, w, s);
    if s.Act? {
      LocalKeepsOk(c.tier, w.fetches[s.id], s.action);
    }
  }

  lemma {:induction false} RunKeepsInv(c: Config, w: World, steps: seq<Step>)
    requires Inv(c, w) && Run(c, w, steps).Some?
    ensures Inv(c, Run(c, w, steps).value)
    decreases |steps|
  {
    if steps != [] {
      NextKeepsInv(c, w, steps[0]);
      RunKeepsInv(c, Next(c, w, steps[0]).value, steps[1..]);
    }
  }

  function Start(): World {
    World(0, map[])
  }

  lemma StartInv(c: Config)
    ensures Inv(c, Start())
  {
    assert AbandonedSet(Start()) == {} && InsideSet(Start()) == {};
  }

  /** For every schedule of any number of fetches, the global count is the number of counted threads
      that are still alive, so it is never negative, and it stays at or below the ceiling minus one
      plus the number of callers past the check. */
  lemma AbandonedCountIsExactAndBounded(c: Config, steps: seq<Step>)
    requires Run(c, Start(), steps).Some?
    ensures var w := Run(c, Start(), steps).value;
            && w.count == |AbandonedSet(w)| >= 0
            && (c.ceiling >= 1 ==> w.count <= c.ceiling - 1 + c.callers)
            && (c.ceiling < 1 ==> w.fetches == map[])
            && (c.tier != Browser(false) ==>
                w.count == |set f | f in w.fetches && w.fetches[f].caller == TimedOut && !w.fetches[f].finished|)
  {
    StartInv(c);
    RunKeepsInv(c, Start(), steps);
    var w := Run(c, Start(), steps).value;
    if c.tier != Browser(false) {
      assert AbandonedSet(w) == set f | f in w.fetches && w.fetches[f].caller == TimedOut && !w.fetches[f].finished;
    }
  }

  // ----- The bound is reached

  /** A fetch whose caller gave up and whose thread goes on. */
  function GivenUp(): Fetch {
    Fetch(Driving, TimedOut, Some(CallerSide), false, false, true)
  }

  function Below(n: nat): (s: set<nat>)
    ensures |s| == n && forall f: nat :: f in s <==> f < n
  {
    if n == 0 then {} else Below(n - 1) + {n - 1}
  }

  function Member(n: nat, f: nat): Fetch {
    if f < n then GivenUp() else Fresh()
  }

  /** Fetches below `n` are given up, and `m` more have just entered. */
  function Crowd(n: nat, m: nat): World {
    var ids := Below(n + m);
    World(n, map f | f in ids :: Member(n, f))
  }

  function GiveUp(f: nat): seq<Step> {
    [Act(f, StartThread), Act(f, CallerSeesAlive), Act(f, CallerClaims), Act(f, CallerCounts)]
  }

  lemma CrowdInside(n: nat, m: nat)
    ensures |InsideSet(Crowd(n, m))| == m
  {
    assert !Inside(GivenUp()) && Inside(Fresh());
    assert InsideSet(Crowd(n, m)) == Below(n + m) - Below(n);
    assert Below(n + m) == (Below(n + m) - Below(n)) + Below(n);
  }

  lemma {:induction false} RunAppend(c: Config, w: World, a: seq<Step>, b: seq<Step>)
    requires Run(c, w, a).Some?
    ensures Run(c, w, a + b) == Run(c, Run(c, w, a).value, b)
    decreases |a|
  {
    if a == [] {
      assert a + b == b;
    } else {
      assert (a + b)[1..] == a[1..] + b;
      RunAppend(c, Next(c, w, a[0]).value, a[1..], b);
    }
  }

  lemma RunOne(c: Config, w: World, s: Step)
    ensures Run(c, w, [s]) == Next(c, w, s)
  {
    assert [s][1..] == [];
    var r := Next(c, w, s);
    assert r.Some? ==> Run(c, r.value, []) == r;
  }

  function Put(w: World, f: nat, x: Fetch): World {
    w.(fetches := w.fetches[f := x])
  }

  lemma EntersTo(c: Config, w: World, f: nat)
    requires f !in w.fetches && w.count < c.ceiling && |InsideSet(w)| < c.callers
    ensures Run(c, w, [Enter(f)]) == Some(Put(w, f, Fresh()))
  {
    RunOne(c, w, Enter(f));
  }

  lemma CrowdGrows(n: nat, m: nat)
    ensures n + m !in Crowd(n, m).fetches && Put(Crowd(n, m), n + m, Fresh()) == Crowd(n, m + 1)
  {
    var (a, b) := (Put(Crowd(n, m), n + m, Fresh()).fetches, Crowd(n, m + 1).fetches);
    assert a.Keys == b.Keys;
    forall f | f in a.Keys ensures a[f] == b[f] {
      assert f != n + m ==> a[f] == Member(n, f);
    }
    assert a == b;
  }

  lemma OneEnters(c: Config, n: nat, m: nat)
    requires n < c.ceiling && m < c.callers
    ensures Run(c, Crowd(n, m), [Enter(n + m)]) == Some(Crowd(n, m + 1))
  {
    CrowdInside(n, m);
    CrowdGrows(n, m);
    EntersTo(c, Crowd(n, m), n + m);
  }

  /** Two steps of one fetch. */
  lemma Steps(c: Config, w: World, f: nat, x: Fetch, a: Action, y: Fetch, b: Action, z: Fetch)
    requires f in w.fetches && w.fetches[f] == x
    requires Local(c.tier, x, a) == Some(y) && Local(c.tier, y, b) == Some(z)
    ensures Run(c, w, [Act(f, a), Act(f, b)]) == Some(World(w.count + Delta(x, a) + Delta(y, b), w.fetches[f := z]))
  {
    var v := World(w.count + Delta(x, a), w.fetches[f := y]);
    RunOne(c, w, Act(f, a));
    RunOne(c, v, Act(f, b));
    RunAppend(c, w, [Act(f, a)], [Act(f, b)]);
    assert [Act(f, a)] + [Act(f, b)] == [Act(f, a), Act(f, b)];
    assert v.fetches[f := z] == w.fetches[f := z];
  }

  lemma CrowdMoves(n: nat, m: nat)
    requires m > 0
    ensures Crowd(n, m).fetches[n := GivenUp()] == Crowd(n + 1, m - 1).fetches
  {
    var (a, b) := (Crowd(n, m).fetches[n := GivenUp()], Crowd(n + 1, m - 1).fetches);
    assert a.Keys == b.Keys;
    assert forall f | f in a.Keys :: a[f] == b[f];
  }

  lemma OneGivesUp(c: Config, n: nat, m: nat)
    requires m > 0
    ensures Run(c, Crowd(n, m), GiveUp(n)) == Some(Crowd(n + 1, m - 1))
  {
    var w := Crowd(n, m);
    var x1 := Fresh().(owner := Driving, caller := Watching);
    var x2 := x1.(caller := Trying);
    var x3 := x2.(claimed := Some(CallerSide), caller := Counting);
    assert w.fetches[n] == Fresh();
    Steps(c, w, n, Fresh(), StartThread, x1, CallerSeesAlive, x2);
    Steps(c, Put(w, n, x2), n, x2, CallerClaims, x3, CallerCounts, GivenUp());
    assert w.fetches[n := x2][n := GivenUp()] == w.fetches[n := GivenUp()];
    CrowdMoves(n, m);
    RunAppend(c, w, [Act(n, StartThread), Act(n, CallerSeesAlive)], [Act(n, CallerClaims), Act(n, CallerCounts)]);
    assert GiveUp(n) == [Act(n, StartThread), Act(n, CallerSeesAlive)] + [Act(n, CallerClaims), Act(n, CallerCounts)];
  }

  function Concat(parts: nat -> seq<Step>, n: nat): seq<Step> {
    if n == 0 then [] else Concat(parts, n - 1) + parts(n - 1)
  }

  /** Runs from each world of a family to the next make up one run. */
  lemma {:induction false} Chain(c: Config, w: nat -> World, parts: nat -> seq<Step>, n: nat)
    requires forall i: nat | i < n :: Run(c, w(i), parts(i)) == Some(w(i + 1))
    ensures Run(c, w(0), Concat(parts, n)) == Some(w(n))
  {
    if n > 0 {
      Chain(c, w, parts, n - 1);
      RunAppend(c, w(0), Concat(parts, n - 1), parts(n - 1));
    }
  }

  /** A family of worlds that fetches enter and give up in, one at a time. */
  ghost predicate IsCrowd(c: Config, crowd: (nat, nat) -> World) {
    && (forall n: nat, m: nat | n < c.ceiling && m < c.callers ::
          Run(c, crowd(n, m), [Enter(n + m)]) == Some(crowd(n, m + 1)))
    && (forall n: nat, m: nat | m > 0 :: Run(c, crowd(n, m), GiveUp(n)) == Some(crowd(n + 1, m - 1)))
  }

  lemma ManyEnter(c: Config, crowd: (nat, nat) -> World, n: nat, m: nat) returns (steps: seq<Step>)
    requires IsCrowd(c, crowd) && n < c.ceiling && m <= c.callers
    ensures Run(c, crowd(n, 0), steps) == Some(crowd(n, m))
  {
    var (w, parts) := ((i: nat) => crowd(n, i), (i: nat) => [Enter(n + i)]);
    Chain(c, w, parts, m);
    steps := Concat(parts, m);
  }

  lemma {:induction false} ManyGiveUp(c: Config, crowd: (nat, nat) -> World, n: nat, m: nat)
    returns (steps: seq<Step>)
    requires IsCrowd(c, crowd)
    ensures Run(c, crowd(n, m), steps) == Some(crowd(n + m, 0))
    decreases m
  {
    if m == 0 {
      steps := [];
    } else {
      var rest := ManyGiveUp(c, crowd, n + 1, m - 1);
      RunAppend(c, crowd(n, m), GiveUp(n), rest);
      steps := GiveUp(n) + rest;
    }
  }

  lemma OneByOne(c: Config, crowd: (nat, nat) -> World, n: nat) returns (steps: seq<Step>)
    requires IsCrowd(c, crowd) && n < c.ceiling && c.callers >= 1
    ensures Run(c, crowd(0, 0), steps) == Some(crowd(n, 0))
  {
    var (w, parts) := ((i: nat) => crowd(i, 0), (i: nat) => [Enter(i + 0)] + GiveUp(i));
    forall i: nat | i < n ensures Run(c, w(i), parts(i)) == Some(w(i + 1)) {
      assert i < c.ceiling && 0 < c.callers;
      assert Run(c, crowd(i, 0), [Enter(i + 0)]) == Some(crowd(i, 0 + 1));
      assert Run(c, crowd(i, 1), GiveUp(i)) == Some(crowd(i + 1, 1 - 1));
      RunAppend(c, crowd(i, 0), [Enter(i + 0)], GiveUp(i));
    }
    Chain(c, w, parts, n);
    steps := Concat(parts, n);
  }

  lemma CrowdIs(c: Config)
    ensures IsCrowd(c, Crowd)
  {
    forall n: nat, m: nat | n < c.ceiling && m < c.callers
      ensures Run(c, Crowd(n, m), [Enter(n + m)]) == Some(Crowd(n, m + 1))
    {
      OneEnters(c, n, m);
    }
    forall n: nat, m: nat | m > 0 ensures Run(c, Crowd(n, m), GiveUp(n)) == Some(Crowd(n + 1, m - 1)) {
      OneGivesUp(c, n, m);
    }
  }

  lemma CrowdRuns(c: Config, crowd: (nat, nat) -> World) returns (steps: seq<Step>)
    requires IsCrowd(c, crowd) && c.ceiling >= 1 && c.callers >= 1
    ensures Run(c, crowd(0, 0), steps) == Some(crowd(c.ceiling - 1 + c.callers, 0))
  {
    var n := c.ceiling - 1;
    var fill := OneByOne(c, crowd, n);
    var enter := ManyEnter(c, crowd, n, c.callers);
    var leave := ManyGiveUp(c, crowd, n, c.callers);
    RunAppend(c, crowd(0, 0), fill, enter);
    RunAppend(c, crowd(0, 0), fill + enter, leave);
    steps := fill + enter + leave;
  }

  /** The bound is tight in both tiers: with at least one caller allowed, some run leaves exactly the
      ceiling minus one plus all the callers abandoned. */
  lemma BoundIsReached(c: Config) returns (steps: seq<Step>)
    requires c.ceiling >= 1 && c.callers >= 1
    ensures Run(c, Start(), steps).Some? && Run(c, Start(), steps).value.count == c.ceiling - 1 + c.callers
  {
    CrowdIs(c);
    assert Crowd(0, 0) == Start() by { assert Crowd(0, 0).fetches == map[]; }
    steps := CrowdRuns(c, Crowd);
  }

  /** When both threads of a fetch are done, exactly one side won the claim, and it decided the
      caller's result: the stored outcome if the driving thread won, a timeout if the caller did.
      A caller about to read always finds the outcome stored. */
  lemma ExactlyOneSideWins(c: Config, steps: seq<Step>, f: nat)
    requires Run(c, Start(), steps).Some? && f in Run(c, Start(), steps).value.fetches
    ensures var x := Run(c, Start(), steps).value.fetches[f];
            && (x.owner == Exited && !Inside(x) ==>
                  && (x.claimed == Some(OwnerSide) <==> x.caller == Returned)
                  && (x.claimed == Some(CallerSide) <==> x.caller == TimedOut)
                  && x.claimed.Some?)
            && (Local(c.tier, x, CallerReads).Some? ==> x.holder)
            && (x.caller == Returned ==> x.holder)
            && (x.caller == TimedOut ==> !x.holder)
  {
    StartInv(c);
    RunKeepsInv(c, Start(), steps);
  }
}
