/**
 The rate limit on the evaluator's "nothing to report" warning. The tracker remembers when it last
 warned for a (job, window) and forgets entries older than two days.
 */
module EmptyDigestWarnings {
  /** Two days, in microseconds. */
  const TTL := 172_800_000_000

  datatype Key = Key(job: string, window: string)

  datatype Check = Check(key: Key, now: int)

  type Warned = map<Key, int>

  function Purge(w: Warned, now: int): Warned {
    map k | k in w && w[k] >= now - TTL :: w[k]
  }

  /** `should_warn`: the new dictionary and the answer. */
  function Decide(w: Warned, c: Check): (Warned, bool) {
    var p := Purge(w, c.now);
    if c.key in p then (p, false) else (p[c.key := c.now], true)
  }

  class EmptyDigestWarningTracker {
    var warned: Warned

    constructor ()
      ensures warned == map[]
    {
      warned := map[];
    }

    method ShouldWarn(key: Key, now: int) returns (warn: bool)
      modifies this
      ensures (warned, warn) == Decide(old(warned), Check(key, now))
      ensures warn <==> key !in old(warned) || old(warned)[key] < now - TTL
      ensures key in warned && warned[key] == if warn then now else old(warned)[key]
      ensures forall k | k != key ::
                && (k in warned <==> k in old(warned) && old(warned)[k] >= now - TTL)
                && (k in warned ==> warned[k] == old(warned)[k])
    {
      warned := Purge(warned, now);
      if key in warned {
        return false;
      }
      warned := warned[key := now];
      warn := true;
    }
  }

  /** A run of checks on a new tracker: the dictionary after it and the checks that warned. */
  function Run(checks: seq<Check>): (Warned, set<Check>) {
    if checks == [] then (map[], {})
    else
      var c := checks[|checks| - 1];
      var (w, given) := Run(checks[..|checks| - 1]);
      (Decide(w, c).0, if Decide(w, c).1 then given + {c} else given)
  }

  ghost predicate ClockRises(checks: seq<Check>, now: int) {
    && (forall i, j :: 0 <= i < j < |checks| ==> checks[i].now <= checks[j].now)
    && (forall i :: 0 <= i < |checks| ==> checks[i].now <= now)
  }

  /** Each entry is a warning that was given, and a given warning that is not older than two days at
      `now` has an entry at least as recent. */
  ghost predicate Remembers(w: Warned, given: set<Check>, now: int) {
    && (forall k | k in w :: Check(k, w[k]) in given)
    && (forall d | d in given && d.now >= now - TTL :: d.key in w && d.now <= w[d.key])
  }

  lemma DecideRemembers(w: Warned, given: set<Check>, c: Check)
    requires Remembers(w, given, c.now) && (forall d | d in given :: d.now <= c.now)
    ensures Remembers(Decide(w, c).0, if Decide(w, c).1 then given + {c} else given, c.now)
    ensures Decide(w, c).1 <==> !exists d | d in given :: d.key == c.key && d.now >= c.now - TTL
  {
    var p := Purge(w, c.now);
    if c.key in p {
      assert Check(c.key, w[c.key]) in given;
    }
  }

  lemma {:induction false} RunRemembers(checks: seq<Check>, now: int)
    requires ClockRises(checks, now)
    ensures Remembers(Run(checks).0, Run(checks).1, now)
    ensures forall d | d in Run(checks).1 :: d.now <= now
    decreases |checks|
  {
    if checks != [] {
      var (n, c) := (|checks| - 1, checks[|checks| - 1]);
      RunRemembers(checks[..n], c.now);
      DecideRemembers(Run(checks[..n]).0, Run(checks[..n]).1, c);
    }
  }

  /** After any run of checks with a clock that does not step back, a check warns exactly when no
      warning for its key was given in the two days before it. */
  lemma WarnsUnlessWarnedLately(checks: seq<Check>, c: Check)
    requires ClockRises(checks, c.now)
    ensures Decide(Run(checks).0, c).1 <==>
            !exists d | d in Run(checks).1 :: d.key == c.key && d.now >= c.now - TTL
  {
    RunRemembers(checks, c.now);
    DecideRemembers(Run(checks).0, Run(checks).1, c);
  }

  /** So a window is reported once only while it lasts two days: the second of two checks of one key
      warns again if and only if more than two days separate them. */
  lemma WarnsAgainIffLongWindow(key: Key, first: int, second: int)
    requires first <= second
    ensures Decide(Run([Check(key, first)]).0, Check(key, second)).1 <==>
            second - first > 2 * 24 * 60 * 60 * 1_000_000
  {
    var c := Check(key, first);
    assert [c][..0] == [];
    assert Run([c]).1 == {c};
    WarnsUnlessWarnedLately([c], Check(key, second));
    assert c in Run([c]).1;
  }
}
