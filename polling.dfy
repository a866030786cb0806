/**
  The bounded polling loop that ends CreateIngressesParallel and
  CreateIngressesSerial (tests/scaletest/scale_test.go): the wait increment is
  read from the poll interval "15s" by dropping its unit and calling Atoi,
  and Verify is retried until it succeeds or waitTime reaches
  testCaseTimeOut. The controller's state at poll j is observe(j); the
  sleep between polls is not modelled.
 */
module Polling {
  import opened Wrappers
  import opened Verification

  /** testCaseTimeOut */
  const TestCaseTimeOut: int := 1800

  /** testPollInterval */
  const TestPollInterval: string := "15s"

  predicate IsDigit(c: char)
  {
    '0' <= c <= '9'
  }

  /** A non-empty run of decimal digits. */
  predicate IsDigits(s: string)
  {
    |s| > 0 && forall i :: 0 <= i < |s| ==> IsDigit(s[i])
  }

  /** The value of a string of decimal digits. */
  function DigitsValue(s: string): nat
    requires forall i :: 0 <= i < |s| ==> IsDigit(s[i])
  {
    if s == [] then 0
    else
      var last := s[|s| - 1];
      assert IsDigit(last);
      DigitsValue(s[..|s| - 1]) * 10 + (last as int - '0' as int)
  }

  /** strconv.Atoi: an optional sign followed by decimal digits, an error otherwise. */
  function Atoi(s: string): Option<int>
  {
    if |s| > 0 && (s[0] == '+' || s[0] == '-') then
      if IsDigits(s[1..]) then
        var magnitude: int := DigitsValue(s[1..]);
        Some(if s[0] == '-' then -magnitude else magnitude)
      else None
    else if IsDigits(s) then Some(DigitsValue(s))
    else None
  }

  function DigitChar(d: nat): char
    requires d < 10
  {
    ('0' as int + d) as char
  }

  /** The decimal rendering of a natural number, without sign or leading zeros. */
  function DecimalDigits(n: nat): string
  {
    if n < 10 then [DigitChar(n)] else DecimalDigits(n / 10) + [DigitChar(n % 10)]
  }

  /** Rendering a number in decimal and reading it back gives the number. */
  lemma {:induction false} DigitsValueOfDecimal(n: nat)
    ensures IsDigits(DecimalDigits(n))
    ensures DigitsValue(DecimalDigits(n)) == n
  {
    if n >= 10 {
      DigitsValueOfDecimal(n / 10);
      var s := DecimalDigits(n);
      assert s[..|s| - 1] == DecimalDigits(n / 10);
    }
  }

  /** Atoi reads back what DecimalDigits renders. */
  lemma AtoiOfDecimal(n: nat)
    ensures Atoi(DecimalDigits(n)) == Some(n)
  {
    DigitsValueOfDecimal(n);
    assert IsDigit(DecimalDigits(n)[0]);
  }

  /**
    waitTimeIncr: the interval without its last character, through Atoi; the
    error is discarded, so an unreadable interval gives 0. Slicing an empty
    interval would panic, and the interval is the non-empty constant "15s".
   */
  function WaitTimeIncrement(interval: string): (incr: int)
    requires |interval| >= 1
    ensures IsDigits(interval[..|interval| - 1]) ==> incr == DigitsValue(interval[..|interval| - 1])
    ensures incr != 0 ==> Atoi(interval[..|interval| - 1]).Some?
  {
    match Atoi(interval[..|interval| - 1])
    case Some(v) => v
    case None => 0
  }

  /** An interval written as a number and a one-letter unit yields that number. */
  lemma IncrementOfInterval(k: nat, unit: char)
    ensures WaitTimeIncrement(DecimalDigits(k) + [unit]) == k
  {
    var interval := DecimalDigits(k) + [unit];
    assert interval[..|interval| - 1] == DecimalDigits(k);
    AtoiOfDecimal(k);
  }

  /** An interval that is not an integer plus one character gives a zero increment, and waitTime never grows. */
  lemma UnreadableIntervalStalls(interval: string, polls: nat)
    requires |interval| >= 1 && Atoi(interval[..|interval| - 1]).None?
    ensures WaitTimeIncrement(interval) == 0
    ensures polls * WaitTimeIncrement(interval) < TestCaseTimeOut
  {
  }

  /** How often the loop calls Verify when no call succeeds: the least p with p * incr >= timeout. */
  function MaxPolls(timeout: int, incr: int): nat
    requires incr > 0
  {
    if timeout <= 0 then 0 else (timeout + incr - 1) / incr
  }

  /** Multiplying by a natural number keeps the order. */
  lemma {:induction false} MulMonotone(a: nat, b: nat, k: nat)
    requires a <= b
    ensures a * k <= b * k
    decreases b - a
  {
    if a < b {
      MulMonotone(a, b - 1, k);
      assert (b - 1) * k + k == b * k;
    }
  }

  /** waitTime after p polls is below the timeout exactly while p is below MaxPolls. */
  lemma WaitBelowTimeout(p: nat, timeout: int, incr: int)
    requires incr > 0
    ensures p * incr < timeout <==> p < MaxPolls(timeout, incr)
  {
    MulMonotone(0, p, incr);
    if timeout > 0 {
      var c := MaxPolls(timeout, incr);
      var r := (timeout + incr - 1) % incr;
      assert timeout + incr - 1 == c * incr + r && 0 <= r < incr;
      if p < c {
        MulMonotone(p, c - 1, incr);
        assert (c - 1) * incr + incr == c * incr;
      } else {
        MulMonotone(c, p, incr);
      }
    }
  }

  /** The default settings allow 120 polls. */
  lemma DefaultPollBudget()
    ensures WaitTimeIncrement(TestPollInterval) == 15
    ensures MaxPolls(TestCaseTimeOut, WaitTimeIncrement(TestPollInterval)) == 120
  {
    assert DecimalDigits(15) == DecimalDigits(1) + [DigitChar(5)];
    assert TestPollInterval == DecimalDigits(15) + ['s'];
    IncrementOfInterval(15, 's');
  }

  /** How a poll loop ends, with the number of Verify calls it made. */
  datatype PollOutcome = Converged(polls: nat) | TimedOut(polls: nat) | Panicked(polls: nat)

  /**
    What a finished poll loop with a budget of `budget` calls tells about the
    snapshots it saw: it stopped at the first Verify that passed or panicked,
    every earlier call failed, and a timeout means `budget` failing calls.
   */
  predicate PollReport(run: Run, observe: nat -> Snapshot, poll: PollOutcome, budget: nat)
  {
    && (poll.TimedOut? ==> poll.polls == budget)
    && (!poll.TimedOut? ==> 1 <= poll.polls <= budget)
    && (poll.Converged? ==> Verify(run, observe(poll.polls - 1)) == Pass)
    && (poll.Panicked? ==> Verify(run, observe(poll.polls - 1)) == Panic)
    && (forall j :: 0 <= j < poll.polls && (poll.TimedOut? || j < poll.polls - 1) ==> Verify(run, observe(j)) == Fail)
  }

  /**
    The loop at lines 385-391: make the check until it passes, raising
    waitTime by incr after each failure, while waitTime < timeout. The check
    made at poll j is check(j). With incr <= 0 the loop would never end.
   */
  method PollUntil(check: nat -> Check, incr: int, timeout: int) returns (outcome: PollOutcome)
    requires incr > 0
    ensures outcome.TimedOut? ==> outcome.polls == MaxPolls(timeout, incr)
    ensures !outcome.TimedOut? ==> 1 <= outcome.polls <= MaxPolls(timeout, incr)
    ensures outcome.Converged? ==> check(outcome.polls - 1) == Pass
    ensures outcome.Panicked? ==> check(outcome.polls - 1) == Panic
    ensures forall j :: 0 <= j < outcome.polls && (outcome.TimedOut? || j < outcome.polls - 1) ==> check(j) == Fail
  {
    var waitTime := 0;
    var polls: nat := 0;
    while waitTime < timeout
      invariant waitTime == polls * incr
      invariant polls <= MaxPolls(timeout, incr)
      invariant forall j :: 0 <= j < polls ==> check(j) == Fail
      decreases timeout - waitTime
    {
      WaitBelowTimeout(polls, timeout, incr);
      var result := check(polls);
      polls := polls + 1;
      if result == Pass {
        return Converged(polls);
      } else if result == Panic {
        return Panicked(polls);
      }
      waitTime := waitTime + incr;
    }
    WaitBelowTimeout(polls, timeout, incr);
    outcome := TimedOut(polls);
  }

  /** The loop at lines 383-392 with Verify as the check, on the snapshot of each poll. */
  method PollUntilVerified(run: Run, observe: nat -> Snapshot, incr: int, timeout: int) returns (outcome: PollOutcome)
    requires incr > 0
    ensures PollReport(run, observe, outcome, MaxPolls(timeout, incr))
  {
    var check := (j: nat) => Verify(run, observe(j));
    outcome := PollUntil(check, incr, timeout);
    forall j | 0 <= j < outcome.polls && (outcome.TimedOut? || j < outcome.polls - 1)
      ensures Verify(run, observe(j)) == Fail
    {
      assert check(j) == Fail;
    }
  }
}
