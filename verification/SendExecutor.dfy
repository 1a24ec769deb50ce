/**
 The send-only thread pool of the evaluator loop. A pool whose send timed out is swapped for a
 fresh one and kept on a list until its orphaned send ends; a full list refuses new sends. Pools
 and futures are numbered in creation order. `done` is the set of ended futures; threads end on
 their own, which `Progress` stands for. A submission can raise after its work item was queued (the
 pool could not start a thread); the item stays on the pool as a stray that nothing waits for.
 */
module SendExecutor {
  import opened Wrappers

  const LIVE_ORPHANS_PER_WORKER := 3

  type Future = nat

  datatype Retired = Retired(pool: nat, orphan: Future)

  /** The retired pools whose orphan has not ended. */
  function Live(retired: seq<Retired>, done: set<Future>): (r: seq<Retired>)
    ensures |r| <= |retired|
    ensures forall p :: p in r <==> p in retired && p.orphan !in done
  {
    if retired == [] then []
    else
      var n := |retired| - 1;
      Live(retired[..n], done) + if retired[n].orphan in done then [] else [retired[n]]
  }

  /** The ended futures after the submitted ones among `more` end too. */
  function Ended(done: set<Future>, more: set<Future>, submitted: nat): set<Future> {
    done + set f | f in more && f < submitted
  }

  class RotatingSendExecutor {
    const maxLiveOrphans: nat
    var current: nat
    var retired: seq<Retired>
    var done: set<Future>
    var submitted: nat
    /** The pool each future was submitted to. */
    ghost var pool: map<Future, nat>
    /** The future the evaluator waits for. */
    ghost var awaited: Option<Future>
    /** The futures whose submission raised. */
    ghost var strays: set<Future>

    /** Strays apart, no future but the awaited one is unfinished on the current pool, and every other
        unfinished future is the orphan of a retired pool, of which there are at most
        `maxLiveOrphans`. */
    ghost predicate Valid()
      reads this
    {
      && |retired| <= maxLiveOrphans
      && (forall f | f in done :: f < submitted)
      && (forall f | f in pool :: f < submitted && pool[f] <= current)
      && (forall f | f in pool && pool[f] == current && f !in done :: awaited == Some(f) || f in strays)
      && (forall f | f in pool && f !in done :: awaited == Some(f) || Retired(pool[f], f) in retired || f in strays)
      && strays <= pool.Keys
      && (awaited.Some? ==> awaited.value in pool && pool[awaited.value] == current)
    }

    constructor (maxWorkers: nat)
      ensures Valid() && awaited.None? && pool == map[] && retired == [] && strays == {}
      ensures maxLiveOrphans == 3 * maxWorkers
    {
      maxLiveOrphans := maxWorkers * LIVE_ORPHANS_PER_WORKER;
      current, retired, done, submitted := 0, [], {}, 0;
      pool, awaited, strays := map[], None, {};
    }

    /** Threads end: the environment's step. */
    method Progress(more: set<Future>)
      requires Valid()
      modifies this`done
      ensures Valid() && done == Ended(old(done), more, submitted)
    {
      done := Ended(done, more, submitted);
    }

    method PruneRetired()
      modifies this`retired
      ensures retired == Live(old(retired), done)
    {
      var stillLive := [];
      var i := 0;
      while i < |retired|
        invariant 0 <= i <= |retired|
        invariant stillLive == Live(retired[..i], done)
      {
        assert retired[..i + 1][..i] == retired[..i];
        if retired[i].orphan !in done {
          stillLive := stillLive + [retired[i]];
        }
        i := i + 1;
      }
      assert retired[..i] == retired;
      retired := stillLive;
    }

    method CanSubmit() returns (ok: bool)
      requires Valid()
      modifies this`retired
      ensures Valid() && retired == Live(old(retired), done)
      ensures ok <==> |retired| < maxLiveOrphans
    {
      PruneRetired();
      ok := |retired| < maxLiveOrphans;
    }

    /** A submission that raised, before or after queueing the work item. */
    method SubmitRaises(queued: bool)
      requires Valid() && awaited.None?
      modifies this`submitted, this`pool, this`strays
      ensures Valid() && pool.Keys == old(pool).Keys + (strays - old(strays))
      ensures if queued then strays == old(strays) + {old(submitted)} else strays == old(strays)
    {
      if queued {
        pool := pool[submitted := current];
        strays := strays + {submitted};
        submitted := submitted + 1;
      }
    }

    /** A send goes to a pool on which every earlier send has ended, if and only if no stray is left
        unfinished there. */
    method Submit() returns (f: Future)
      requires Valid() && awaited.None?
      modifies this`submitted, this`pool, this`awaited
      ensures Valid() && awaited == Some(f) && f !in old(pool)
      ensures pool == old(pool)[f := current] && f !in done
      ensures forall g | g in old(pool) && old(pool)[g] == current :: g in done || g in strays
      ensures (forall g | g in old(pool) && old(pool)[g] == current :: g in done)
              <==> (forall g | g in strays && pool[g] == current :: g in done)
    {
      f := submitted;
      submitted := submitted + 1;
      pool := pool[f := current];
      awaited := Some(f);
    }

    /** The awaited send returned or raised. */
    method Finish(f: Future)
      requires Valid() && awaited == Some(f)
      modifies this`done, this`awaited
      ensures Valid() && awaited.None? && done == old(done) + {f}
    {
      done := done + {f};
      awaited := None;
    }

    /** `rotate()`, after a timeout: with the running orphan, or with none when the future could
        still be cancelled, which ends it. */
    method Rotate(orphan: Option<Future>)
      requires Valid()
      requires orphan.Some? ==> orphan == awaited && |retired| < maxLiveOrphans
      requires orphan.None? && awaited.Some? ==> awaited.value in done
      modifies this`current, this`retired, this`awaited
      ensures Valid() && awaited.None? && current == old(current) + 1
      ensures retired == if orphan.Some? then Live(old(retired) + [Retired(old(current), orphan.value)], done)
                         else old(retired)
    {
      var stuck := current;
      current := current + 1;
      awaited := None;
      if orphan.Some? {
        retired := retired + [Retired(stuck, orphan.value)];
        PruneRetired();
      }
    }
  }
}
