/** The `transfer` command of globus/cli.py (globus/cli.py:580-618): resolve
    bookmarks, check the login, parse every transfer specification, make both
    endpoints active, submit, and optionally wait for the task. */
module TransferCommand {
  import opened Outcomes
  import opened Lists
  import opened TransferSpecs
  import opened Service
  import opened Activation
  import opened TaskWait
  import opened Bookmarks

  /** How the command ends on a rejected specification: the mixed-directory
      case is the command's own error; a spec without exactly one `:` or with
      an empty side raises out of `split`/`[-1]` uncaught. */
  function SpecExit(e: SpecError): (code: ExitCode)
    ensures code == InvalidTransferSpecificationError <==> e == MixedDirectory
    ensures code == InvalidTransferSpecificationError || code == Crash
  {
    if e == MixedDirectory then InvalidTransferSpecificationError else Crash
  }

  /** The command, with the bookmark table, its arguments, what successive
      `task_wait` calls report (`poll`) and the id the service gives the
      submitted task. It exits before any endpoint call when the login is
      missing or some specification is malformed; otherwise it runs the
      activation orchestrator on the two mapped endpoints and, only if that
      succeeds, submits the parsed items in input order; with `wait` it
      succeeds exactly when some poll within the budget finds the task
      finished, and otherwise exits with the wait loop's code. */
  method Transfer(
    w: World, bookmarks: Table, sourceArg: string, destinationArg: string, specs: seq<string>,
    wait: bool, maxAttempts: int, poll: nat -> PollResult, taskId: string)
    returns (r: Outcome<string>, w': World, calls: seq<Event>)
    ensures !w.loggedIn ==> r == Exit(AuthorizationError) && w' == w && calls == []
    ensures w.loggedIn && ParseAll(specs).Err? ==>
      r == Exit(SpecExit(ParseAll(specs).error.error)) && w' == w && calls == []
    ensures w.loggedIn && ParseAll(specs).Ok? ==>
      var src := MapEndpoint(bookmarks, sourceArg);
      var dst := MapEndpoint(bookmarks, destinationArg);
      var a := ActivateOrExit(w, [src, dst]);
      && w' == a.world
      && (a.outcome.Exit? ==> r == Exit(a.outcome.code) && calls == a.calls)
      && (a.outcome.Done? ==>
            && calls == a.calls + [Submit(src, dst, ParseAll(specs).value)]
            && (!wait ==> r == Done(taskId))
            && (wait ==> (r == Done(taskId) <==> FinishesWithin(poll, Budget(maxAttempts))))
            && (r.Exit? ==> r.code == WaitTaskTimeout || r.code == WaitTaskError))
  {
    var src := MapEndpoint(bookmarks, sourceArg);
    var dst := MapEndpoint(bookmarks, destinationArg);
    if !w.loggedIn {
      return Exit(AuthorizationError), w, [];
    }
    var parsed := AddTransferItems(specs);
    if parsed.Err? {
      return Exit(SpecExit(parsed.error.error)), w, [];
    }
    var activated;
    activated, w', calls := ActivateEndpointsOrExit(w, [src, dst]);
    if activated.Exit? {
      return Exit(activated.code), w', calls;
    }
    calls := calls + [Submit(src, dst, parsed.value)];
    if wait {
      var waited, attempts := WaitForTaskOrExit(maxAttempts, poll);
      if waited.Exit? {
        return Exit(waited.code), w', calls;
      }
    }
    r := Done(taskId);
  }

  /** A transfer is submitted only once both endpoints are active, and
      nothing is submitted before the orchestrator has finished. */
  lemma SubmitOnlyWhenActive(w: World, src: string, dst: string)
    requires ActivateOrExit(w, [src, dst]).outcome.Done?
    ensures AllActive(ActivateOrExit(w, [src, dst]).world.endpoints, [src, dst])
    ensures forall i :: 0 <= i < |ActivateOrExit(w, [src, dst]).calls| ==>
      !ActivateOrExit(w, [src, dst]).calls[i].Submit?
  {
    ActivateOrExitActive(w, [src, dst]);
    ActivateOrExitCalls(w, [src, dst]);
  }
}
