/**
 The window of a digest job: the greatest occurrence of its cron schedule that is not after
 the tick. A schedule is an unbounded, strictly increasing grid of instants (integer
 microseconds), indexed by the integers. How croniter and the time zone database produce that
 grid is not part of this model, only that they may reject a schedule: the store accepts any cron
 text of five fields.
 */
module Scheduler {
  import opened Wrappers

  type Grid = int -> int

  ghost predicate StrictlyIncreasing(g: Grid) {
    forall i, j :: i < j ==> g(i) < g(j)
  }

  /** A cron text and the time zone it is read in. */
  datatype Schedule = Schedule(cron: string, zone: string)

  const UTC := "UTC"

  /** The grids of all schedules; `None` where croniter or zoneinfo raises. */
  type Grids = Schedule -> Option<Grid>

  ghost predicate ValidGrids(grids: Grids) {
    forall s | grids(s).Some? :: StrictlyIncreasing(grids(s).value)
  }

  function SearchUp(g: Grid, base: int, k: int): (r: int)
    requires StrictlyIncreasing(g)
    requires g(k) < base
    ensures g(r) < base <= g(r + 1)
    decreases base - g(k)
  {
    if g(k + 1) < base then SearchUp(g, base, k + 1) else k
  }

  function SearchDown(g: Grid, base: int, k: int): (r: int)
    requires StrictlyIncreasing(g)
    requires base <= g(k)
    ensures g(r) < base <= g(r + 1)
    decreases g(k) - base
  {
    if g(k - 1) < base then k - 1 else SearchDown(g, base, k - 1)
  }

  /** `croniter.get_prev`: the index of the last occurrence strictly before `base`. */
  function GetPrev(g: Grid, base: int): (r: int)
    requires StrictlyIncreasing(g)
    ensures g(r) < base <= g(r + 1)
  {
    if g(0) < base then SearchUp(g, base, 0) else SearchDown(g, base, 0)
  }

  /** One microsecond, which turns the exclusive `get_prev` into an inclusive one. */
  const INCLUSIVE_EPSILON := 1

  function WindowIndex(g: Grid, now: int): int
    requires StrictlyIncreasing(g)
  {
    GetPrev(g, now + INCLUSIVE_EPSILON)
  }

  function ComputeWindowStart(g: Grid, now: int): int
    requires StrictlyIncreasing(g)
  {
    g(WindowIndex(g, now))
  }

  /** The window is an occurrence, it is not after `now`, and no occurrence up to `now` is later:
      an occurrence exactly at `now` is its own window. */
  lemma WindowIsLatestOccurrence(g: Grid, now: int, k: int)
    requires StrictlyIncreasing(g)
    ensures ComputeWindowStart(g, now) <= now
    ensures g(k) <= now <==> g(k) <= ComputeWindowStart(g, now)
    ensures g(k) <= now <==> k <= WindowIndex(g, now)
  {
    var r := WindowIndex(g, now);
    assert k <= r || r + 1 <= k;
  }

  /** Two ticks get the same window exactly when no occurrence lies between them. */
  lemma SameWindowIffNoOccurrenceBetween(g: Grid, s: int, t: int)
    requires StrictlyIncreasing(g) && s <= t
    ensures ComputeWindowStart(g, s) == ComputeWindowStart(g, t) <==> !exists k :: s < g(k) <= t
  {
    var (i, j) := (WindowIndex(g, s), WindowIndex(g, t));
    WindowIsLatestOccurrence(g, t, i);
    if i < j {
      WindowIsLatestOccurrence(g, s, j);
      assert s < g(j) <= t;
    }
    forall k | s < g(k) <= t ensures i < j {
      WindowIsLatestOccurrence(g, s, k);
      WindowIsLatestOccurrence(g, t, k);
    }
  }

  /** The window index never moves back as time passes. */
  lemma WindowIndexMonotone(g: Grid, s: int, t: int)
    requires StrictlyIncreasing(g) && s <= t
    ensures WindowIndex(g, s) <= WindowIndex(g, t)
  {
    WindowIsLatestOccurrence(g, t, WindowIndex(g, s));
  }
}
