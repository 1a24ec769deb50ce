/**
 The `job_runs` table of the state database: one row per (job, window) that the evaluator fired.
 Times are instants; the database compares their texts, which module Timestamps shows to be the
 same order. Every operation is one transaction.
 */
module JobRuns {
  import opened Wrappers

  datatype Status = Queued | Running | Sent | Error | SkippedNoEmail

  predicate Active(s: Status) {
    s.Queued? || s.Running?
  }

  /** The primary key, which is also the idempotence key of a delivery. */
  datatype Key = Key(job: string, window: int)

  datatype Row = Row(
    owner: string, firedAt: int, sentAt: Option<int>, status: Status, error: Option<string>)

  type Table = map<Key, Row>

  const REAPED := "reaped: stale job_run past max-send-timeout"

  function Insert(t: Table, k: Key, r: Row): Table {
    if k in t then t else t[k := r]
  }

  function Update(t: Table, k: Key, status: Status, sentAt: Option<int>, error: Option<string>): Table {
    if k in t then t[k := t[k].(status := status, sentAt := sentAt, error := error)] else t
  }

  predicate HasActive(t: Table, owner: string, job: string) {
    exists k | k in t :: k.job == job && t[k].owner == owner && Active(t[k].status)
  }

  predicate Stale(k: Key, r: Row, owner: string, job: string, firedBefore: int) {
    k.job == job && r.owner == owner && Active(r.status) && r.firedAt < firedBefore
  }

  function Reap(t: Table, owner: string, job: string, firedBefore: int): Table {
    map k | k in t :: if Stale(k, t[k], owner, job, firedBefore)
                      then t[k].(status := Error, error := Some(REAPED)) else t[k]
  }

  function StaleKeys(t: Table, owner: string, job: string, firedBefore: int): set<Key> {
    set k | k in t && Stale(k, t[k], owner, job, firedBefore)
  }

  /** At most one in-flight row per job. */
  ghost predicate OneActivePerJob(t: Table) {
    forall k, l | k in t && l in t && k.job == l.job && Active(t[k].status) && Active(t[l].status) :: k == l
  }

  function Committed(f: Fault, before: Table, after: Table): Table {
    if f == RaisedBefore then before else after
  }

  /** The adapter: the table is replaced by each operation. A call that raises has no result. */
  class StateStore {
    var jobRuns: Table

    constructor (initial: Table)
      ensures jobRuns == initial
    {
      jobRuns := initial;
    }

    method RecordJobRun(k: Key, r: Row, fault: Fault) returns (first: Option<bool>)
      modifies this
      ensures jobRuns == Committed(fault, old(jobRuns), Insert(old(jobRuns), k, r))
      ensures jobRuns == if fault == RaisedBefore || k in old(jobRuns) then old(jobRuns) else old(jobRuns)[k := r]
      ensures first == if fault == Fine then Some(k !in old(jobRuns)) else None
    {
      if fault == RaisedBefore { return None; }
      var rowcount := 0;
      if k !in jobRuns {
        jobRuns := jobRuns[k := r];
        rowcount := 1;
      }
      first := if fault == Fine then Some(rowcount == 1) else None;
    }

    method UpdateJobRun(k: Key, status: Status, sentAt: Option<int>, error: Option<string>, fault: Fault)
      returns (found: Option<bool>)
      modifies this
      ensures jobRuns == Committed(fault, old(jobRuns), Update(old(jobRuns), k, status, sentAt, error))
      ensures fault == RaisedBefore || k !in old(jobRuns) ==> jobRuns == old(jobRuns)
      ensures fault != RaisedBefore && k in old(jobRuns) ==>
                var r := old(jobRuns)[k];
                jobRuns == old(jobRuns)[k := Row(r.owner, r.firedAt, sentAt, status, error)]
      ensures found == if fault == Fine then Some(k in old(jobRuns)) else None
    {
      if fault == RaisedBefore { return None; }
      if k in jobRuns {
        jobRuns := jobRuns[k := jobRuns[k].(status := status, sentAt := sentAt, error := error)];
      }
      found := if fault == Fine then Some(k in jobRuns) else None;
    }

    /** SELECT 1 ... LIMIT 1. */
    method HasActiveJobRun(owner: string, job: string, fault: Fault) returns (active: Option<bool>)
      ensures active == if fault == Fine then Some(HasActive(jobRuns, owner, job)) else None
      ensures active == Some(true) <==> fault == Fine && exists k | k in jobRuns ::
                k.job == job && jobRuns[k].owner == owner && jobRuns[k].status in {Queued, Running}
    {
      active := if fault == Fine then Some(HasActive(jobRuns, owner, job)) else None;
    }

    method ReapStaleJobRun(owner: string, job: string, firedBefore: int, fault: Fault)
      returns (reaped: Option<bool>)
      modifies this
      ensures jobRuns == Committed(fault, old(jobRuns), Reap(old(jobRuns), owner, job, firedBefore))
      ensures jobRuns.Keys == old(jobRuns).Keys
      ensures forall k | k in old(jobRuns) ::
                var r := old(jobRuns)[k];
                jobRuns[k] == if fault != RaisedBefore && k.job == job && r.owner == owner
                                 && r.status in {Queued, Running} && r.firedAt < firedBefore
                              then Row(r.owner, r.firedAt, r.sentAt, Error, Some(REAPED)) else r
      ensures fault != Fine ==> reaped == None
      ensures fault == Fine ==> reaped == Some(|StaleKeys(old(jobRuns), owner, job, firedBefore)| == 1)
      ensures reaped == Some(true) ==>
                StaleKeys(jobRuns, owner, job, firedBefore) < StaleKeys(old(jobRuns), owner, job, firedBefore)
    {
      if fault == RaisedBefore { return None; }
      var rows := StaleKeys(jobRuns, owner, job, firedBefore);
      ReapMeaning(jobRuns, owner, job, firedBefore);
      jobRuns := Reap(jobRuns, owner, job, firedBefore);
      reaped := if fault == Fine then Some(|rows| == 1) else None;
    }
  }

  /** The reaper reports `rowcount == 1`, documented as "some row was reaped". The two agree exactly
      when at most one row of the job was stale. */
  lemma ReapAnswerIff(t: Table, owner: string, job: string, firedBefore: int)
    ensures var rows := StaleKeys(t, owner, job, firedBefore);
            (|rows| == 1 <==> exists k | k in t :: Stale(k, t[k], owner, job, firedBefore)) <==> |rows| <= 1
  {
    var rows := StaleKeys(t, owner, job, firedBefore);
    if k :| k in t && Stale(k, t[k], owner, job, firedBefore) {
      assert k in rows;
    } else {
      assert rows == {};
    }
  }

  /** One row in flight per job, which a single evaluator keeps, is enough for that. */
  lemma OneStaleAtMost(t: Table, owner: string, job: string, firedBefore: int)
    requires OneActivePerJob(t)
    ensures |StaleKeys(t, owner, job, firedBefore)| <= 1
  {
    var rows := StaleKeys(t, owner, job, firedBefore);
    if k :| k in rows {
      assert rows == {k};
    }
  }

  /** With two stale rows the report is wrong: both are reaped, and the answer is no. */
  lemma TwoStaleRowsReapedUnreported()
    ensures var r := Row("o", 0, None, Running, None);
            var t: Table := map[Key("j", 1) := r, Key("j", 2) := r];
            |StaleKeys(t, "o", "j", 5)| != 1 && !HasActive(Reap(t, "o", "j", 5), "o", "j")
  {
    var r := Row("o", 0, None, Running, None);
    var t: Table := map[Key("j", 1) := r, Key("j", 2) := r];
    assert StaleKeys(t, "o", "j", 5) == {Key("j", 1), Key("j", 2)};
  }

  /** What the check for an active run is for: recording a new run of a job keeps one row in flight per
      job if and only if the check finds none. */
  lemma ActiveCheckGuardsInsert(t: Table, k: Key, r: Row)
    requires OneActivePerJob(t) && k !in t && r.status == Queued
    requires forall l | l in t && l.job == k.job :: t[l].owner == r.owner
    ensures OneActivePerJob(Insert(t, k, r)) <==> !HasActive(t, r.owner, k.job)
  {
    var u := Insert(t, k, r);
    if l :| l in t && l.job == k.job && Active(t[l].status) {
      assert u[l] == t[l] && l != k;
    }
  }

  /** Reaping frees no window, touches no row fired at the cutoff or later, none of another job and
      none that is terminal, and leaves no older row of the job in flight. */
  lemma ReapMeaning(t: Table, owner: string, job: string, firedBefore: int)
    ensures Reap(t, owner, job, firedBefore).Keys == t.Keys
    ensures var u := Reap(t, owner, job, firedBefore);
            && (forall k | k in t ::
                  u[k] != t[k] <==> k.job == job && t[k].owner == owner && t[k].status in {Queued, Running}
                                    && t[k].firedAt < firedBefore)
            && (forall k | k in t && u[k] != t[k] ::
                  k in StaleKeys(t, owner, job, firedBefore)
                  && u[k] == Row(t[k].owner, t[k].firedAt, t[k].sentAt, Error, Some(REAPED)))
            && StaleKeys(u, owner, job, firedBefore) == {}
  {
  }
}
