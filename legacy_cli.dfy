/** The older single-file command line, globus.py: one endpoint at a time
    is activated by a short-circuit chain of three checks, then the transfer
    is submitted. Its three named exit statuses (globus.py:14-16) are all 1;
    the model keeps them apart as the `ExitCode` naming the `sys.exit` that
    fired. */
module LegacyCli {
  import opened Outcomes
  import opened TransferSpecs
  import opened Service
  import TransferCommand

  /** `is_endpoint_active`: `get_endpoint` raises for an endpoint the service
      does not know; otherwise only the JSON value `true` counts. */
  function EndpointActive(w: World, e: string): (r: Outcome<bool>)
    ensures r.Exit? <==> e !in w.endpoints
    ensures r.Exit? ==> r.code == Crash
    ensures r.Done? ==> (r.value <==> w.endpoints[e].activated == JBool(true))
  {
    if e !in w.endpoints then Exit(Crash) else Done(IsActive(w.endpoints[e]))
  }

  /** A truthy `"activated"` value that is not `true` does not make an endpoint active. */
  lemma OnlyTrueIsActive(w: World, e: string)
    requires e in w.endpoints && w.endpoints[e].activated != JBool(true)
    ensures EndpointActive(w, e) == Done(false)
  {
  }

  /** `activate_endpoint_automatically`: one `endpoint_autoactivate` call,
      true exactly when its code is not `AutoActivationFailed`. */
  function ActivateAutomatically(w: World, e: string): (s: Step<bool>)
    ensures s.calls == [AutoActivate(e)]
    ensures s.outcome.Exit? <==> e !in w.endpoints
    ensures s.outcome.Exit? ==> s.outcome.code == Crash && s.world == w
    ensures s.outcome.Done? ==>
      && (s.outcome.value <==> w.endpoints[e].autoCode != AUTO_ACTIVATION_FAILED)
      && s.world.endpoints.Keys == w.endpoints.Keys
      && s.world.operator == w.operator
      && (s.outcome.value ==> IsActive(s.world.endpoints[e]))
      && (!s.outcome.value ==> s.world == w)
  {
    if e !in w.endpoints then Step(Exit(Crash), w, [AutoActivate(e)])
    else
      var (code, w') := AutoActivation(w, e);
      Step(Done(code != AUTO_ACTIVATION_FAILED), w', [AutoActivate(e)])
  }

  /** `activate_endpoint_manually`: exactly one prompt, no loop; the answer
      is the re-queried status, so it is true exactly when the endpoint was
      active already or the person activated it before pressing ENTER.
      Ctrl-c at the prompt aborts the command. */
  function ActivateManually(w: World, e: string): (s: Step<bool>)
    ensures s.outcome.Exit? ==> s.world == w
    ensures e !in w.endpoints ==> s.outcome == Exit(Crash) && s.calls == []
    ensures e in w.endpoints ==>
      && s.calls == [Prompt(e)]
      && (s.outcome.Exit? <==> w.operator == [])
      && (s.outcome.Exit? ==> s.outcome.code == Aborted)
      && (s.outcome.Done? ==>
            && s.world.operator == w.operator[1..]
            && s.world.endpoints.Keys == w.endpoints.Keys
            && (s.outcome.value <==> w.operator[0] || IsActive(w.endpoints[e]))
            && (s.outcome.value <==> IsActive(s.world.endpoints[e])))
  {
    if e !in w.endpoints then Step(Exit(Crash), w, [])
    else
      match Acknowledge(w, e)
      case None => Step(Exit(Aborted), w, [Prompt(e)])
      case Some(w') => Step(Done(IsActive(w'.endpoints[e])), w', [Prompt(e)])
  }

  /** `activate_endpoint_or_exit`: the first check that succeeds ends the
      chain; if none does, the command exits with ACTIVATION_ERROR. */
  function ActivateEndpointOrExit(w: World, e: string): (s: Step<()>)
    ensures s.outcome.Done? ==> e in s.world.endpoints && IsActive(s.world.endpoints[e])
    ensures s.outcome.Exit? ==>
      s.outcome.code == Crash || s.outcome.code == Aborted || s.outcome.code == EndpointActivationError
    ensures |s.calls| <= 2
  {
    match EndpointActive(w, e)
    case Exit(code) => Step(Exit(code), w, [])
    case Done(active) =>
      if active then Step(Done(()), w, [])
      else
        var auto := ActivateAutomatically(w, e);
        if auto.outcome == Done(true) then Step(Done(()), auto.world, auto.calls)
        else
          var manual := ActivateManually(auto.world, e);
          var calls := auto.calls + manual.calls;
          match manual.outcome
          case Exit(code) => Step(Exit(code), manual.world, calls)
          case Done(ok) => Step(if ok then Done(()) else Exit(EndpointActivationError), manual.world, calls)
  }

  /** An active endpoint costs no autoactivation call and no prompt. */
  lemma ActiveShortCircuits(w: World, e: string)
    requires e in w.endpoints && IsActive(w.endpoints[e])
    ensures ActivateEndpointOrExit(w, e) == Step(Done(()), w, [])
  {
  }

  /** A successful autoactivation costs no prompt. */
  lemma AutoShortCircuits(w: World, e: string)
    requires e in w.endpoints && !IsActive(w.endpoints[e])
    requires w.endpoints[e].autoCode != AUTO_ACTIVATION_FAILED
    ensures var s := ActivateEndpointOrExit(w, e);
      s.outcome.Done? && s.calls == [AutoActivate(e)] && IsActive(s.world.endpoints[e])
  {
  }

  /** The command exits with ACTIVATION_ERROR exactly when all three checks
      come back false: not active, autoactivation failed, and the person
      pressed ENTER without activating; ctrl-c at the prompt aborts instead,
      and an unknown endpoint crashes before anything is called. */
  lemma ActivationErrorIffAllFail(w: World, e: string)
    ensures var s := ActivateEndpointOrExit(w, e);
      && (s.outcome == Exit(EndpointActivationError) <==>
            && e in w.endpoints
            && !IsActive(w.endpoints[e])
            && w.endpoints[e].autoCode == AUTO_ACTIVATION_FAILED
            && w.operator != [] && !w.operator[0])
      && (s.outcome == Exit(Aborted) <==>
            && e in w.endpoints
            && !IsActive(w.endpoints[e])
            && w.endpoints[e].autoCode == AUTO_ACTIVATION_FAILED
            && w.operator == [])
      && (s.outcome == Exit(Crash) <==> e !in w.endpoints)
      && (e !in w.endpoints ==> s.calls == [] && s.world == w)
  {
  }

  /** On success the endpoint is active; in every case the chain makes at
      most one call of each kind, all about `e`, in the order of the chain,
      and prompts exactly when autoactivation was tried and failed. */
  lemma ActivateEndpointOrExitEffects(w: World, e: string)
    ensures var s := ActivateEndpointOrExit(w, e);
      && (s.outcome.Done? ==> e in s.world.endpoints && IsActive(s.world.endpoints[e]))
      && (s.calls == [] || s.calls == [AutoActivate(e)] || s.calls == [AutoActivate(e), Prompt(e)])
      && (s.calls == [AutoActivate(e), Prompt(e)] <==>
            e in w.endpoints && !IsActive(w.endpoints[e]) && w.endpoints[e].autoCode == AUTO_ACTIVATION_FAILED)
  {
  }

  /** The chain never forgets an endpoint, never deactivates one and
      touches no endpoint but `e`; it uses at most one acknowledgement. */
  lemma ActivateEndpointOrExitKeeps(w: World, e: string)
    ensures var s := ActivateEndpointOrExit(w, e);
      && s.world.endpoints.Keys == w.endpoints.Keys
      && s.world.loggedIn == w.loggedIn
      && (forall v :: v in w.endpoints && v != e ==> s.world.endpoints[v] == w.endpoints[v])
      && (forall v :: v in w.endpoints && IsActive(w.endpoints[v]) ==> IsActive(s.world.endpoints[v]))
      && (s.world.operator == w.operator || (w.operator != [] && s.world.operator == w.operator[1..]))
  {
  }

  /** `transfer` (globus.py:84-111). Reading the refresh token comes first
      and raises when there is none; every specification is checked before
      either endpoint is touched; the source is activated before the
      destination, and an exit there means the destination is never queried. */
  method Transfer(w: World, source: string, destination: string, specs: seq<string>)
    returns (r: Outcome<()>, w': World, calls: seq<Event>)
    ensures !w.loggedIn ==> r == Exit(Crash) && w' == w && calls == []
    ensures w.loggedIn && ParseAll(specs).Err? ==>
      r == Exit(TransferCommand.SpecExit(ParseAll(specs).error.error)) && w' == w && calls == []
    ensures w.loggedIn && ParseAll(specs).Ok? ==>
      var s := ActivateEndpointOrExit(w, source);
      var d := ActivateEndpointOrExit(s.world, destination);
      && (s.outcome.Exit? ==> r == s.outcome && w' == s.world && calls == s.calls)
      && (s.outcome.Done? && d.outcome.Exit? ==> r == d.outcome && w' == d.world && calls == s.calls + d.calls)
      && (s.outcome.Done? && d.outcome.Done? ==>
            r == Done(()) && w' == d.world && calls == s.calls + d.calls + [Submit(source, destination, ParseAll(specs).value)])
    ensures r.Done? ==>
      && source in w'.endpoints && IsActive(w'.endpoints[source])
      && destination in w'.endpoints && IsActive(w'.endpoints[destination])
  {
    if !w.loggedIn {
      return Exit(Crash), w, [];
    }
    var items := AddTransferItems(specs);
    if items.Err? {
      return Exit(TransferCommand.SpecExit(items.error.error)), w, [];
    }
    var s := ActivateEndpointOrExit(w, source);
    if s.outcome.Exit? {
      return s.outcome, s.world, s.calls;
    }
    var d := ActivateEndpointOrExit(s.world, destination);
    if d.outcome.Exit? {
      return d.outcome, d.world, s.calls + d.calls;
    }
    ActivateEndpointOrExitEffects(w, source);
    ActivateEndpointOrExitEffects(s.world, destination);
    ActivateEndpointOrExitKeeps(s.world, destination);
    r, w', calls := Done(()), d.world, s.calls + d.calls + [Submit(source, destination, items.value)];
  }

  /** Activating the two endpoints submits nothing, so the one `Submit` of
      `Transfer` is its last call. */
  lemma ActivationNeverSubmits(w: World, source: string, destination: string)
    ensures var s := ActivateEndpointOrExit(w, source);
      var d := ActivateEndpointOrExit(s.world, destination);
      forall ev :: ev in s.calls + d.calls ==> !ev.Submit?
  {
    var s := ActivateEndpointOrExit(w, source);
    ActivateEndpointOrExitEffects(w, source);
    ActivateEndpointOrExitEffects(s.world, destination);
  }
}
