/**
 One call of `SmtpDigestSender.send`: the two retry classifiers, one SMTP transaction, the retry
 loop, and the settings that the composition root derives for it. The relay is arbitrary, apart
 from what section 4.2 of RFC 5321 makes a reply after the message content mean: a 2yz reply
 accepts the message, a 4yz or 5yz reply does not.
 */
module Smtp {
  import opened Wrappers

  // ----- Failures and classifiers

  /** The exceptions that the classifiers tell apart. `ResponseError` is any reply-carrying
      exception without a constructor of its own: a refused sender, a data, HELO or
      authentication error. */
  datatype Failure =
    | SslError
    | ConnectError(code: int)
    | ServerDisconnected
    | RecipientsRefused(codes: seq<int>)
    | ResponseError(code: int)
    | OtherSmtp
    | OsFailure
    | UnsafeRecipient
    | OtherFailure

  predicate Transient(code: int) {
    400 <= code < 500
  }

  function RetryableConnect(f: Failure): bool {
    if f.SslError? then false
    else if f.ConnectError? || f.ServerDisconnected? then true
    else if f.RecipientsRefused? || f.ResponseError? || f.OtherSmtp? then false
    else f.OsFailure?
  }

  function RetryableSend(f: Failure): bool {
    match f
    case RecipientsRefused(codes) => forall c | c in codes :: Transient(c)
    case ConnectError(code) => Transient(code)
    case ResponseError(code) => Transient(code)
    case _ => false
  }

  // ----- One transaction

  /** What happens to the message once `send_message` is called. */
  datatype Transfer =
    | RefusedBeforeContent(failure: Failure)
    | ContentReply(code: int, taken: bool)
    | NoReply(failure: Failure, taken: bool)
    | SomeRecipientsRefused

  /** The relay's side of one attempt: connect, STARTTLS and login, transfer, and the answer to
      the QUIT that leaving the client's context sends (`None` when the connection is gone). */
  datatype Relay = Relay(
    connect: Option<Failure>, secure: Option<Failure>, transfer: Transfer, quit: Option<int>)

  /** A reply means what the standard says, and a lost reply raises no reply-carrying exception. */
  predicate Conforming(r: Relay) {
    match r.transfer
    case ContentReply(code, taken) => (200 <= code < 300 ==> taken) && (400 <= code < 600 ==> !taken)
    case NoReply(f, _) => !f.RecipientsRefused? && !f.ResponseError? && !f.ConnectError?
    case _ => true
  }

  /** Whether the relay took responsibility for the message during this attempt. */
  predicate Accepted(r: Relay) {
    && r.connect.None? && r.secure.None?
    && match r.transfer {
         case RefusedBeforeContent(_) => false
         case ContentReply(_, taken) => taken
         case NoReply(_, taken) => taken
         case SomeRecipientsRefused => true
       }
  }

  datatype Attempt = Succeeded | Retryable(failure: Failure) | Fatal(failure: Failure)

  function ClassifyConnect(f: Failure): Attempt {
    if RetryableConnect(f) then Retryable(f) else Fatal(f)
  }

  function ClassifySend(f: Failure): Attempt {
    if RetryableSend(f) then Retryable(f) else Fatal(f)
  }

  function TransferOutcome(t: Transfer): Attempt {
    match t
    case RefusedBeforeContent(f) => ClassifySend(f)
    case ContentReply(code, _) => if code == 250 then Succeeded else ClassifySend(ResponseError(code))
    case NoReply(f, _) => ClassifySend(f)
    case SomeRecipientsRefused => Fatal(UnsafeRecipient)
  }

  /** Leaving the client's context: an answer to QUIT other than 221 replaces whatever the body
      of the context did, outside both classifiers. */
  function Closing(body: Attempt, quit: Option<int>): Attempt {
    if quit.Some? && quit.value != 221 then Fatal(ResponseError(quit.value)) else body
  }

  function SendOnce(r: Relay): Attempt {
    if r.connect.Some? then ClassifyConnect(r.connect.value)
    else if r.secure.Some? then Closing(ClassifyConnect(r.secure.value), r.quit)
    else Closing(TransferOutcome(r.transfer), r.quit)
  }

  /** A retried attempt was not accepted, and a successful one was. */
  lemma RetryOnlyAfterRefusal(r: Relay)
    requires Conforming(r)
    ensures SendOnce(r).Retryable? ==> !Accepted(r)
    ensures SendOnce(r).Succeeded? ==> Accepted(r)
  {
  }

  /** The context is left without an error: QUIT is answered with 221, or the connection is gone. */
  predicate LeftCleanly(r: Relay) {
    r.quit.None? || r.quit.value == 221
  }

  /** An attempt succeeds if and only if every phase did: connecting, securing, a 250 after the content,
      and leaving. */
  lemma SucceedsIff(r: Relay)
    ensures SendOnce(r).Succeeded? <==>
            && r.connect.None? && r.secure.None?
            && r.transfer.ContentReply? && r.transfer.code == 250
            && LeftCleanly(r)
  {
  }

  /** A failure of the network, before the server has said anything about the message. */
  predicate NetworkFailure(f: Failure) {
    f.OsFailure? || f.ConnectError? || f.ServerDisconnected?
  }

  /** The server's "not delivered, try again": a 4yz reply, or 4yz for every recipient. */
  predicate TryAgain(t: Transfer) {
    match t
    case ContentReply(code, _) => 400 <= code < 500
    case SomeRecipientsRefused => false
    case RefusedBeforeContent(f) => SaysTryAgain(f)
    case NoReply(f, _) => SaysTryAgain(f)
  }

  predicate SaysTryAgain(f: Failure) {
    match f
    case RecipientsRefused(codes) => forall c | c in codes :: 400 <= c < 500
    case ConnectError(code) => 400 <= code < 500
    case ResponseError(code) => 400 <= code < 500
    case _ => false
  }

  /** An attempt is retryable if and only if connecting or securing met a failure of the network, or the
      server said to try again, and leaving the context raised nothing else. A TLS error, a rejected
      credential, a 5yz reply and a failure without a reply are not. */
  lemma RetryableIff(r: Relay)
    ensures SendOnce(r).Retryable? <==>
            if r.connect.Some? then NetworkFailure(r.connect.value)
            else if r.secure.Some? then NetworkFailure(r.secure.value) && LeftCleanly(r)
            else TryAgain(r.transfer) && LeftCleanly(r)
  {
  }

  /** The failure that the caller sees is that of the first phase that failed, unless leaving the
      context replaced it. */
  lemma FailureSeen(r: Relay)
    requires !SendOnce(r).Succeeded?
    ensures SendOnce(r).failure ==
            if r.connect.Some? then r.connect.value
            else if !LeftCleanly(r) then ResponseError(r.quit.value)
            else if r.secure.Some? then r.secure.value
            else match r.transfer
                 case RefusedBeforeContent(f) => f
                 case ContentReply(code, _) => ResponseError(code)
                 case NoReply(f, _) => f
                 case SomeRecipientsRefused => UnsafeRecipient
  {
  }

  // ----- The retry loop

  const MAX_OPS_PER_ATTEMPT := 8.0

  /** `deadline` is `None` for an infinite send deadline. */
  datatype Settings = Settings(
    timeout: real, retryAttempts: int, retryBackoff: real, deadline: Option<real>)

  datatype Result = NotSent | Sent | Raised(failure: Failure)

  /** Enough of the send deadline is left, at clock reading `now`, for one more attempt. */
  predicate WithinBudget(s: Settings, start: real, now: real) {
    s.deadline.Some? ==> s.timeout * MAX_OPS_PER_ATTEMPT <= start + s.deadline.value - now
  }

  /** Whether the loop goes on after attempt `k`. The clock is read once for the deadline and
      twice after each retryable failure, before and after the backoff. */
  predicate GoesOn(s: Settings, relay: nat -> Relay, clock: nat -> real, k: nat) {
    && SendOnce(relay(k)).Retryable?
    && k < s.retryAttempts
    && WithinBudget(s, clock(0), clock(2 * k + 1))
    && WithinBudget(s, clock(0), clock(2 * k + 2))
  }

  /** The number of attempts made when attempt `k` is the next one. */
  function AttemptsFrom(s: Settings, relay: nat -> Relay, clock: nat -> real, k: nat): (n: nat)
    ensures n > k
    ensures forall i :: k <= i < n - 1 ==> GoesOn(s, relay, clock, i)
    ensures !GoesOn(s, relay, clock, n - 1)
    decreases s.retryAttempts - k
  {
    if GoesOn(s, relay, clock, k) then AttemptsFrom(s, relay, clock, k + 1) else k + 1
  }

  function Attempts(s: Settings, relay: nat -> Relay, clock: nat -> real): nat {
    AttemptsFrom(s, relay, clock, 0)
  }

  function AcceptedCount(relay: nat -> Relay, n: nat): nat {
    if n == 0 then 0 else AcceptedCount(relay, n - 1) + if Accepted(relay(n - 1)) then 1 else 0
  }

  ghost predicate AllConforming(relay: nat -> Relay) {
    forall i: nat :: Conforming(relay(i))
  }

  lemma {:induction false} NothingAcceptedBeforeTheLast(
    s: Settings, relay: nat -> Relay, clock: nat -> real, m: nat)
    requires AllConforming(relay) && m < Attempts(s, relay, clock)
    ensures AcceptedCount(relay, m) == 0
  {
    if m > 0 {
      NothingAcceptedBeforeTheLast(s, relay, clock, m - 1);
      assert GoesOn(s, relay, clock, m - 1);
      RetryOnlyAfterRefusal(relay(m - 1));
    }
  }

  /** Whatever the relay does, one call has at most one accepted message, however early the
      process that runs it is killed (`m` attempts begun). */
  lemma AtMostOneAccepted(s: Settings, relay: nat -> Relay, clock: nat -> real, m: nat)
    requires AllConforming(relay) && m <= Attempts(s, relay, clock)
    ensures AcceptedCount(relay, m) <= 1
  {
    if m > 0 {
      NothingAcceptedBeforeTheLast(s, relay, clock, m - 1);
    }
  }

  /** `send`, after the message has been built. `recipient` is the looked-up address, and
      `validDomain` whether its host is a sequence of domain labels. */
  method Send(s: Settings, recipient: Option<string>, validDomain: bool,
              relay: nat -> Relay, clock: nat -> real)
    returns (result: Result, attempts: nat)
    ensures recipient.None? || recipient.value == "" ==> result == NotSent && attempts == 0
    ensures recipient.Some? && recipient.value != "" && (',' in recipient.value || !validDomain) ==>
              result == Raised(UnsafeRecipient) && attempts == 0
    ensures recipient.Some? && recipient.value != "" && ',' !in recipient.value && validDomain ==>
              attempts == Attempts(s, relay, clock)
    ensures attempts > 0 ==>
              result == match SendOnce(relay(attempts - 1)) {
                          case Succeeded => Sent
                          case Retryable(f) => Raised(f)
                          case Fatal(f) => Raised(f) }
    ensures attempts > 0 ==> (result == Sent <==>
              var r := relay(attempts - 1);
              r.connect.None? && r.secure.None? && r.transfer.ContentReply? && r.transfer.code == 250 && LeftCleanly(r))
    ensures forall k :: 0 <= k < attempts - 1 ==> SendOnce(relay(k)).Retryable?
    ensures attempts > 0 && SendOnce(relay(0)).Succeeded? ==> result == Sent && attempts == 1
    ensures attempts <= (if s.retryAttempts > 0 then s.retryAttempts else 0) + 1
    ensures forall k :: 0 < k < attempts ==> WithinBudget(s, clock(0), clock(2 * k))
    ensures AllConforming(relay) ==> AcceptedCount(relay, attempts) <= 1
    ensures AllConforming(relay) && result == Sent ==> AcceptedCount(relay, attempts) == 1
  {
    attempts := 0;
    if recipient.None? || recipient.value == "" {
      return NotSent, 0;
    }
    if ',' in recipient.value || !validDomain {
      return Raised(UnsafeRecipient), 0;
    }
    var attemptsLeft := s.retryAttempts + 1;
    while true
      invariant attemptsLeft == s.retryAttempts + 1 - attempts
      invariant attempts > 0 ==> attemptsLeft > 0
      invariant forall i :: 0 <= i < attempts ==> GoesOn(s, relay, clock, i)
      invariant AttemptsFrom(s, relay, clock, attempts) == Attempts(s, relay, clock)
      decreases attemptsLeft
    {
      attemptsLeft := attemptsLeft - 1;
      var outcome := SendOnce(relay(attempts));
      var k := attempts;
      attempts := attempts + 1;
      if outcome.Succeeded? {
        result := Sent;
        break;
      }
      result := Raised(outcome.failure);
      if outcome.Fatal? || attemptsLeft <= 0 {
        break;
      }
      if !WithinBudget(s, clock(0), clock(2 * k + 1)) || !WithinBudget(s, clock(0), clock(2 * k + 2)) {
        break;
      }
    }
    SucceedsIff(relay(attempts - 1));
    forall k | 0 <= k < attempts - 1 ensures SendOnce(relay(k)).Retryable? {
      assert GoesOn(s, relay, clock, k);
    }
    forall k | 0 < k < attempts ensures WithinBudget(s, clock(0), clock(2 * k)) {
      assert GoesOn(s, relay, clock, k - 1);
    }
    if AllConforming(relay) {
      AtMostOneAccepted(s, relay, clock, attempts);
      RetryOnlyAfterRefusal(relay(attempts - 1));
    }
  }

  // ----- The settings built by the composition root

  /** A configured float, which may be any value the environment parses to. */
  datatype Float = NaN | PosInf | NegInf | Fin(v: real)

  function Max(x: real, y: real): real {
    if x < y then y else x
  }

  function Min(x: real, y: real): real {
    if x < y then x else y
  }

  function SafeTimeout(configured: Float, reaper: int): real {
    if configured.Fin? && 0.0 < configured.v < reaper as real then configured.v
    else Max(0.1, reaper as real / 2.0)
  }

  function SendDeadline(reaper: int, timeout: real): real {
    Max(0.1, reaper as real - timeout)
  }

  predicate WarnsThinBudget(timeout: real, reaper: int) {
    reaper as real - timeout < 9.0 * timeout
  }

  function BuildSettings(configured: Float, reaper: int, retryAttempts: int, retryBackoff: real): Settings {
    var t := SafeTimeout(configured, reaper);
    Settings(t, retryAttempts, retryBackoff, Some(SendDeadline(reaper, t)))
  }

  /** The socket timeout is strictly between zero and the reaper bound, and it is the configured
      one exactly when that already is in range. */
  lemma SafeTimeoutInRange(configured: Float, reaper: int)
    requires reaper >= 1
    ensures 0.0 < SafeTimeout(configured, reaper) < reaper as real
    ensures (configured == Fin(SafeTimeout(configured, reaper))) <==>
            (configured.Fin? && 0.0 < configured.v < reaper as real)
    ensures configured != Fin(SafeTimeout(configured, reaper)) ==>
              SafeTimeout(configured, reaper) * 2.0 == reaper as real
    ensures SendDeadline(reaper, SafeTimeout(configured, reaper)) <= reaper as real
  {
  }

  // ----- When a failed attempt is retried

  /** What the deadline leaves of one more attempt's worst case after `elapsed` seconds. */
  function Slack(s: Settings, elapsed: real): real
    requires s.deadline.Some?
  {
    s.deadline.value - elapsed - s.timeout * MAX_OPS_PER_ATTEMPT
  }

  /** The sleep before a retry: the configured backoff, cut down to the slack. */
  function Backoff(s: Settings, elapsed: real): real
    requires s.deadline.Some?
  {
    Max(0.0, Min(s.retryBackoff, Slack(s, elapsed)))
  }

  /** Attempt `k` failed after `elapsed` seconds of the call, and the clock reading after the sleep
      is `over` later than asked for: a sleep never ends early. */
  predicate Fails(s: Settings, clock: nat -> real, k: nat, elapsed: real, over: real) {
    && s.deadline.Some? && over >= 0.0
    && clock(2 * k + 1) == clock(0) + elapsed
    && clock(2 * k + 2) == clock(2 * k + 1) + Backoff(s, elapsed) + over
  }

  /** A retryable failure with attempts left is retried exactly if the slack covers the whole backoff
      and the overrun of the sleep. A backoff cut down to the slack is slept in vain: any overrun at
      all then ends the call. Only a clock that shows no overrun makes do with no slack. */
  lemma RetriedIff(s: Settings, relay: nat -> Relay, clock: nat -> real, k: nat, elapsed: real, over: real)
    requires SendOnce(relay(k)).Retryable? && k < s.retryAttempts && Fails(s, clock, k, elapsed, over)
    ensures GoesOn(s, relay, clock, k) <==>
            Slack(s, elapsed) >= if over > 0.0 then Max(0.0, s.retryBackoff) + over else 0.0
  {
  }

  /** Without a deadline every retryable failure with attempts left is retried. */
  lemma UnboundedRetries(s: Settings, relay: nat -> Relay, clock: nat -> real, k: nat)
    requires s.deadline.None?
    ensures GoesOn(s, relay, clock, k) <==> SendOnce(relay(k)).Retryable? && k < s.retryAttempts
  {
  }

  lemma SecondAttemptIff(s: Settings, relay: nat -> Relay, clock: nat -> real, elapsed: real, over: real)
    requires SendOnce(relay(0)).Retryable? && s.retryAttempts >= 1 && Fails(s, clock, 0, elapsed, over)
    ensures Attempts(s, relay, clock) >= 2 <==>
            Slack(s, elapsed) >= if over > 0.0 then Max(0.0, s.retryBackoff) + over else 0.0
  {
    RetriedIff(s, relay, clock, 0, elapsed, over);
    assert Attempts(s, relay, clock) >= 2 <==> GoesOn(s, relay, clock, 0);
  }

  /** A retryable first failure after `elapsed` seconds, with a sleep that overruns by `over`. */
  ghost predicate FirstFailure(s: Settings, relay: nat -> Relay, clock: nat -> real, elapsed: real, over: real) {
    SendOnce(relay(0)).Retryable? && elapsed >= 0.0 && over > 0.0 && Fails(s, clock, 0, elapsed, over)
  }

  /** Every retryable first failure within one socket timeout is retried, if the sleep overruns by no
      more than `bound`. */
  ghost predicate RetriesFastFailures(s: Settings, bound: real) {
    forall relay, clock, elapsed, over
      | FirstFailure(s, relay, clock, elapsed, over) && elapsed <= s.timeout && over <= bound ::
      Attempts(s, relay, clock) >= 2
  }

  /** No first failure is ever retried, however fast it fails and however little the sleep overruns. */
  ghost predicate NeverRetries(s: Settings) {
    forall relay, clock, elapsed, over | FirstFailure(s, relay, clock, elapsed, over) ::
      Attempts(s, relay, clock) == 1
  }

  /** A relay that refuses the first connection, with the clock of a failure after `elapsed` seconds. */
  lemma SomeFirstFailure(s: Settings, elapsed: real, over: real) returns (relay: nat -> Relay, clock: nat -> real)
    requires s.deadline.Some? && elapsed >= 0.0 && over > 0.0
    ensures FirstFailure(s, relay, clock, elapsed, over)
  {
    var after := elapsed + Backoff(s, elapsed) + over;
    relay := i => Relay(Some(OsFailure), None, SomeRecipientsRefused, None);
    clock := i => if i == 0 then 0.0 else if i == 1 then elapsed else after;
  }

  /** Fast failures are always retried if and only if the deadline has room for the spent timeout, a
      full attempt, the backoff and the overrun. The start-up warning compares it with the first two
      alone. */
  lemma RetriesFastFailuresIff(s: Settings, bound: real)
    requires s.deadline.Some? && s.retryAttempts >= 1 && s.timeout > 0.0 && bound > 0.0
    ensures RetriesFastFailures(s, bound) <==>
            s.deadline.value >= 9.0 * s.timeout + Max(0.0, s.retryBackoff) + bound
  {
    forall relay, clock, elapsed, over
      | FirstFailure(s, relay, clock, elapsed, over) && elapsed <= s.timeout && over <= bound
        && s.deadline.value >= 9.0 * s.timeout + Max(0.0, s.retryBackoff) + bound
      ensures Attempts(s, relay, clock) >= 2
    {
      SecondAttemptIff(s, relay, clock, elapsed, over);
    }
    var relay, clock := SomeFirstFailure(s, s.timeout, bound);
    SecondAttemptIff(s, relay, clock, s.timeout, bound);
  }

  /** Retrying is disabled if and only if the deadline leaves nothing beyond a full attempt and the
      backoff. */
  lemma NeverRetriesIff(s: Settings)
    requires s.deadline.Some? && s.retryAttempts >= 1
    ensures NeverRetries(s) <==>
            s.deadline.value <= s.timeout * MAX_OPS_PER_ATTEMPT + Max(0.0, s.retryBackoff)
  {
    var spare := Slack(s, 0.0) - Max(0.0, s.retryBackoff);
    forall relay, clock, elapsed, over | FirstFailure(s, relay, clock, elapsed, over) && spare <= 0.0
      ensures Attempts(s, relay, clock) == 1
    {
      SecondAttemptIff(s, relay, clock, elapsed, over);
    }
    if spare > 0.0 {
      var relay, clock := SomeFirstFailure(s, 0.0, spare);
      SecondAttemptIff(s, relay, clock, 0.0, spare);
    }
  }

  /** Every first failure within one socket timeout passes the budget check before the backoff. */
  ghost predicate FastFailuresPassFirstCheck(s: Settings) {
    forall start, now | 0.0 <= now - start <= s.timeout :: WithinBudget(s, start, now)
  }

  /** What the start-up warning decides is the first of the two budget checks, and that exactly. */
  lemma WarningDecidesFirstCheck(configured: Float, reaper: int, retryAttempts: int, retryBackoff: real)
    requires reaper >= 1
    ensures var s := BuildSettings(configured, reaper, retryAttempts, retryBackoff);
            FastFailuresPassFirstCheck(s) <==> !WarnsThinBudget(s.timeout, reaper)
  {
    var s := BuildSettings(configured, reaper, retryAttempts, retryBackoff);
    SafeTimeoutInRange(configured, reaper);
    assert WarnsThinBudget(s.timeout, reaper) ==> !WithinBudget(s, 0.0, s.timeout);
  }

  /** The three thresholds on the reaper bound, from the settings: the warning is given below ten socket
      timeouts, every fast failure is retried from ten timeouts plus backoff and overrun on, and none
      is up to nine timeouts plus the backoff. */
  lemma RetryThresholds(configured: Float, reaper: int, retryAttempts: int, retryBackoff: real, bound: real)
    requires reaper >= 1 && retryAttempts >= 1 && bound > 0.0
    ensures var s := BuildSettings(configured, reaper, retryAttempts, retryBackoff);
            && (WarnsThinBudget(s.timeout, reaper) <==> reaper as real < 10.0 * s.timeout)
            && (RetriesFastFailures(s, bound) <==>
                reaper as real >= 10.0 * s.timeout + Max(0.0, retryBackoff) + bound)
            && (NeverRetries(s) <==> reaper as real <= 9.0 * s.timeout + Max(0.0, retryBackoff))
  {
    var s := BuildSettings(configured, reaper, retryAttempts, retryBackoff);
    SafeTimeoutInRange(configured, reaper);
    RetriesFastFailuresIff(s, bound);
    NeverRetriesIff(s);
  }

  /** The default settings: no warning, and yet a first attempt that fails within its timeout, after 29
      of 30 seconds, sleeps the last second of the budget away and is not retried, whatever the
      overrun. */
  lemma DefaultsMissARetry(relay: nat -> Relay, clock: nat -> real, over: real)
    requires var s := BuildSettings(Fin(30.0), 300, 2, 2.0); FirstFailure(s, relay, clock, 29.0, over)
    ensures !WarnsThinBudget(30.0, 300)
    ensures var s := BuildSettings(Fin(30.0), 300, 2, 2.0);
            WithinBudget(s, clock(0), clock(1)) && Backoff(s, 29.0) == 1.0 && Attempts(s, relay, clock) == 1
  {
    SecondAttemptIff(BuildSettings(Fin(30.0), 300, 2, 2.0), relay, clock, 29.0, over);
  }

  /** With the warning given, a first attempt that fails fast is still retried: settings that the
      environment can give, and a sleep that overruns. */
  lemma WarningDoesNotDisableRetry()
    ensures var s := BuildSettings(Fin(30.0), 290, 2, 2.0);
            var relay := (i: nat) => Relay(Some(OsFailure), None, SomeRecipientsRefused, None);
            var clock := (i: nat) => if i == 0 then 0.0 else if i == 1 then 0.01 else 2.02;
            && WarnsThinBudget(s.timeout, 290) && FirstFailure(s, relay, clock, 0.01, 0.01)
            && Attempts(s, relay, clock) >= 2
  {
    var s := BuildSettings(Fin(30.0), 290, 2, 2.0);
    var relay := (i: nat) => Relay(Some(OsFailure), None, SomeRecipientsRefused, None);
    var clock := (i: nat) => if i == 0 then 0.0 else if i == 1 then 0.01 else 2.02;
    SecondAttemptIff(s, relay, clock, 0.01, 0.01);
  }
}
