/** `wait_for_task_or_exit` of globus/cli.py: poll a transfer task under a
    bounded attempt budget, remembering whether any poll raised. */
module TaskWait {
  import opened Outcomes

  /** What one `task_wait(task_id, timeout, polling_interval)` call does:
      report the task done, report it still running after the timeout, or
      raise a `TransferAPIError`. */
  datatype PollResult = Finished | NotFinished | Raised

  /** How many polls the loop makes at most: the counter is incremented
      before it is compared with `max_attempts`, so at least one. */
  function Budget(maxAttempts: int): (n: nat)
    ensures n >= 1 && n >= maxAttempts
    ensures n == maxAttempts || (n == 1 && maxAttempts < 1)
  {
    if maxAttempts < 1 then 1 else maxAttempts
  }

  /** The exit code once the budget is spent: a pure function of whether a poll raised. */
  function ExhaustedExit(errored: bool): (code: ExitCode)
    ensures code == WaitTaskError || code == WaitTaskTimeout
    ensures code == WaitTaskError <==> errored
  {
    if errored then WaitTaskError else WaitTaskTimeout
  }

  /** Some poll among attempts `1..n` raised. */
  predicate RaisedWithin(poll: nat -> PollResult, n: nat) {
    exists k :: 1 <= k <= n && poll(k) == Raised
  }

  /** Some attempt within the budget finds the task finished. */
  predicate FinishesWithin(poll: nat -> PollResult, budget: nat) {
    exists k :: 1 <= k <= budget && poll(k) == Finished
  }

  /** The loop of globus/cli.py:836-861; `poll(k)` is what attempt `k` gives.
      It returns on the first attempt that reports done, within the budget;
      otherwise it exits after exactly `Budget(maxAttempts)` polls, with
      WAIT_TASK_ERROR if any of them raised and WAIT_TASK_TIMEOUT if none did. */
  method WaitForTaskOrExit(maxAttempts: int, poll: nat -> PollResult) returns (r: Outcome<bool>, attempts: nat)
    ensures 1 <= attempts <= Budget(maxAttempts)
    ensures forall k :: 1 <= k < attempts ==> poll(k) != Finished
    ensures r == Done(true) <==> poll(attempts) == Finished
    ensures r.Done? ==> r.value
    ensures r.Done? <==> FinishesWithin(poll, Budget(maxAttempts))
    ensures r.Exit? ==>
      attempts == Budget(maxAttempts) && r.code == ExhaustedExit(RaisedWithin(poll, attempts))
  {
    attempts := 0;
    var done := false;
    var errored := false;
    while true
      invariant 0 <= attempts < Budget(maxAttempts)
      invariant !done
      invariant forall k :: 1 <= k <= attempts ==> poll(k) != Finished
      invariant errored <==> RaisedWithin(poll, attempts)
      decreases Budget(maxAttempts) - attempts
    {
      attempts := attempts + 1;
      match poll(attempts) {
        case Finished => done := true;
        case NotFinished => done := false;
        case Raised => errored := true;
      }
      if done {
        assert poll(attempts) == Finished;
        return Done(done), attempts;
      }
      if attempts >= maxAttempts {
        r := Exit(ExhaustedExit(errored));
        return;
      }
    }
  }
}
