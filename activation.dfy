/** The endpoint-activation orchestrator of globus/cli.py: three passes over
    the endpoints of a command (drop the active ones, try automatic
    activation, fall back to manual activation) and the verdict. */
module Activation {
  import opened Outcomes
  import opened Lists
  import opened Service
  import opened JobAttributes

  /** Every endpoint of the list is one the transfer service knows. */
  predicate AllKnown(endpoints: map<string, Endpoint>, eps: seq<string>) {
    forall i :: 0 <= i < |eps| ==> eps[i] in endpoints
  }

  /** Every endpoint of the list is known and active. */
  predicate AllActive(endpoints: map<string, Endpoint>, eps: seq<string>) {
    forall i :: 0 <= i < |eps| ==> eps[i] in endpoints && IsActive(endpoints[eps[i]])
  }

  function InactiveSet(endpoints: map<string, Endpoint>): set<string> {
    set e | e in endpoints && !IsActive(endpoints[e])
  }

  function AutoFailSet(endpoints: map<string, Endpoint>): set<string> {
    set e | e in endpoints && endpoints[e].autoCode == AUTO_ACTIVATION_FAILED
  }

  /** The endpoints still needing manual activation after the first two passes. */
  function NeedManual(endpoints: map<string, Endpoint>, eps: seq<string>): seq<string> {
    Restrict(Restrict(eps, InactiveSet(endpoints)), AutoFailSet(endpoints))
  }

  /** The endpoints left for manual activation are, in list order, exactly
      the listed endpoints that are inactive and whose autoactivation fails. */
  lemma NeedManualExactly(endpoints: map<string, Endpoint>, eps: seq<string>)
    ensures NeedManual(endpoints, eps) == Restrict(eps, InactiveSet(endpoints) * AutoFailSet(endpoints))
    ensures forall x :: x in NeedManual(endpoints, eps) <==>
      x in eps && x in endpoints && !IsActive(endpoints[x]) && endpoints[x].autoCode == AUTO_ACTIVATION_FAILED
  {
    RestrictRestrict(eps, InactiveSet(endpoints), AutoFailSet(endpoints));
    RestrictMembers(eps, InactiveSet(endpoints) * AutoFailSet(endpoints));
  }

  /** What a pass may do to the world: an endpoint is left as it was or, if
      it is in `touched`, becomes active; the flags stay, and the person's
      script is only consumed from the front. */
  predicate Progressed(w: World, w': World, touched: set<string>) {
    && w'.loggedIn == w.loggedIn && w'.interactive == w.interactive
    && w'.endpoints.Keys == w.endpoints.Keys
    && (forall e :: e in w.endpoints ==>
          || w'.endpoints[e] == w.endpoints[e]
          || (e in touched && w'.endpoints[e] == w.endpoints[e].(activated := JBool(true))))
    && |w'.operator| <= |w.operator|
  }

  lemma ProgressedTransitive(w1: World, w2: World, w3: World, touched: set<string>)
    requires Progressed(w1, w2, touched) && Progressed(w2, w3, touched)
    ensures Progressed(w1, w3, touched)
  {
    var n1, n2, n3 := |w1.operator|, |w2.operator|, |w3.operator|;
  }

  /** One `endpoint_autoactivate` call on `e` progresses the world within `{e}`. */
  lemma AutoActivationProgress(w: World, e: string)
    requires e in w.endpoints
    ensures Progressed(w, AutoActivation(w, e).1, {e})
    ensures AutoActivation(w, e).1 == w.(endpoints := AutoActivation(w, e).1.endpoints)
    ensures AutoActivation(w, e).0 != AUTO_ACTIVATION_FAILED ==> IsActive(AutoActivation(w, e).1.endpoints[e])
    ensures AutoActivation(w, e).0 == w.endpoints[e].autoCode
  {
  }

  /** One acknowledgement about `e` progresses the world within `{e}`. */
  lemma AcknowledgeProgress(w: World, e: string)
    requires e in w.endpoints && Acknowledge(w, e).Some?
    ensures Progressed(w, Acknowledge(w, e).value, {e})
    ensures Acknowledge(w, e).value.ownJob == w.ownJob
    ensures |Acknowledge(w, e).value.operator| < |w.operator|
  {
  }

  lemma ProgressedWiden(w: World, w': World, small: set<string>, large: set<string>)
    requires Progressed(w, w', small) && small <= large
    ensures Progressed(w, w', large)
  {
  }

  /** Progress within some set is progress within the known endpoints. */
  lemma ProgressedKnown(w: World, w': World, touched: set<string>)
    requires Progressed(w, w', touched)
    ensures Progressed(w, w', w.endpoints.Keys)
  {
  }

  function Elements(eps: seq<string>): set<string> {
    set e | e in eps
  }

  /** A pass only ever activates endpoints: auto-activation codes stay as
      they were and an active endpoint stays active. */
  lemma ProgressedMonotone(w: World, w': World, touched: set<string>)
    requires Progressed(w, w', touched)
    ensures AutoFailSet(w'.endpoints) == AutoFailSet(w.endpoints)
    ensures forall e :: e in w.endpoints && IsActive(w.endpoints[e]) ==> IsActive(w'.endpoints[e])
  {
    forall e | e in w.endpoints
      ensures w'.endpoints[e].autoCode == w.endpoints[e].autoCode
    {
    }
  }

  /** The first pass, `[e for e in endpoints if not EndpointInfo.get_or_exit(tc, e).is_active]`
      (globus/cli.py:780-782): the command exits if an endpoint is unknown;
      otherwise exactly the inactive endpoints remain, in input order. */
  function InactiveEndpoints(endpoints: map<string, Endpoint>, eps: seq<string>): (r: Outcome<seq<string>>)
    ensures r.Done? <==> AllKnown(endpoints, eps)
    ensures r.Exit? ==> r.code == EndpointInfoError
    ensures r.Done? ==> AllKnown(endpoints, r.value) && |r.value| <= |eps|
    ensures r.Done? ==> forall x :: x in r.value <==> x in eps && x in endpoints && !IsActive(endpoints[x])
  {
    RestrictMembers(eps, InactiveSet(endpoints));
    var inactive := Restrict(eps, InactiveSet(endpoints));
    assert forall i :: 0 <= i < |inactive| ==> inactive[i] in inactive;
    if AllKnown(endpoints, eps) then Done(inactive)
    else Exit(EndpointInfoError)
  }

  /** What the automatic pass leaves behind: the endpoints still unresolved,
      the world after it and its calls. */
  datatype Pass = Pass(unresolved: seq<string>, world: World, calls: seq<Event>)

  /** `activate_endpoints_automatically` (globus/cli.py:798-806) as a value:
      one `endpoint_autoactivate` call per endpoint, in order, collecting
      those whose code is `AutoActivationFailed`. */
  function AutoPass(w: World, eps: seq<string>): (p: Pass)
    requires AllKnown(w.endpoints, eps)
    ensures p.world.endpoints.Keys == w.endpoints.Keys
    decreases |eps|
  {
    if eps == [] then Pass([], w, [])
    else
      var n := |eps| - 1;
      var p := AutoPass(w, eps[..n]);
      var (code, next) := AutoActivation(p.world, eps[n]);
      Pass(p.unresolved + (if code == AUTO_ACTIVATION_FAILED then [eps[n]] else []),
           next, p.calls + [AutoActivate(eps[n])])
  }

  /** The automatic pass touches only the endpoints of its list and leaves
      the rest of the world alone. */
  lemma {:induction false} AutoPassProgress(w: World, eps: seq<string>)
    requires AllKnown(w.endpoints, eps)
    ensures Progressed(w, AutoPass(w, eps).world, Elements(eps))
    ensures AutoPass(w, eps).world == w.(endpoints := AutoPass(w, eps).world.endpoints)
    decreases |eps|
  {
    if eps != [] {
      var n := |eps| - 1;
      var p := AutoPass(w, eps[..n]);
      AutoPassProgress(w, eps[..n]);
      AutoActivationProgress(p.world, eps[n]);
      assert Elements(eps[..n]) <= Elements(eps);
      ProgressedWiden(w, p.world, Elements(eps[..n]), Elements(eps));
      ProgressedWiden(p.world, AutoActivation(p.world, eps[n]).1, {eps[n]}, Elements(eps));
      ProgressedTransitive(w, p.world, AutoActivation(p.world, eps[n]).1, Elements(eps));
    }
  }

  /** The pass returns exactly the endpoints whose auto-activation code is
      `AutoActivationFailed`, in input order. */
  lemma {:induction false} AutoPassUnresolved(w: World, eps: seq<string>)
    requires AllKnown(w.endpoints, eps)
    ensures AutoPass(w, eps).unresolved == Restrict(eps, AutoFailSet(w.endpoints))
    decreases |eps|
  {
    if eps != [] {
      var n := |eps| - 1;
      AutoPassUnresolved(w, eps[..n]);
      AutoPassProgress(w, eps[..n]);
      ProgressedMonotone(w, AutoPass(w, eps[..n]).world, Elements(eps[..n]));
    }
  }

  /** One `endpoint_autoactivate` call per endpoint, in input order. */
  lemma {:induction false} AutoPassCalls(w: World, eps: seq<string>)
    requires AllKnown(w.endpoints, eps)
    ensures |AutoPass(w, eps).calls| == |eps|
    ensures forall i :: 0 <= i < |eps| ==> AutoPass(w, eps).calls[i] == AutoActivate(eps[i])
    decreases |eps|
  {
    if eps != [] {
      AutoPassCalls(w, eps[..|eps| - 1]);
    }
  }

  /** Every endpoint of the list whose code is not `AutoActivationFailed`
      is active after the pass. */
  lemma {:induction false} AutoPassActivates(w: World, eps: seq<string>)
    requires AllKnown(w.endpoints, eps)
    ensures forall x :: x in eps && x in w.endpoints && x !in AutoFailSet(w.endpoints) ==>
      IsActive(AutoPass(w, eps).world.endpoints[x])
    decreases |eps|
  {
    if eps != [] {
      var n := |eps| - 1;
      var p := AutoPass(w, eps[..n]);
      AutoPassActivates(w, eps[..n]);
      AutoPassProgress(w, eps[..n]);
      ProgressedMonotone(w, p.world, Elements(eps[..n]));
      AutoActivationProgress(p.world, eps[n]);
      ProgressedMonotone(p.world, AutoActivation(p.world, eps[n]).1, {eps[n]});
      assert forall x :: x in eps ==> x in eps[..n] || x == eps[n];
    }
  }

  /** The loop of `activate_endpoints_automatically`, appending to
      `unactivated` as it goes. */
  method ActivateEndpointsAutomatically(w: World, eps: seq<string>)
    returns (unactivated: seq<string>, w': World, calls: seq<Event>)
    requires AllKnown(w.endpoints, eps)
    ensures Pass(unactivated, w', calls) == AutoPass(w, eps)
  {
    unactivated, w', calls := [], w, [];
    var i := 0;
    while i < |eps|
      invariant 0 <= i <= |eps|
      invariant Pass(unactivated, w', calls) == AutoPass(w, eps[..i])
    {
      var e := eps[i];
      assert eps[..i + 1][..i] == eps[..i] && eps[..i + 1][i] == e;
      ghost var step := AutoPass(w, eps[..i + 1]);
      var (code, next) := AutoActivation(w', e);
      assert step.world == next;
      w' := next;
      calls := calls + [AutoActivate(e)];
      if code == AUTO_ACTIVATION_FAILED {
        unactivated := unactivated + [e];
      }
      assert Pass(unactivated, w', calls) == step;
      i := i + 1;
    }
    assert eps[..i] == eps;
  }

  /** The interactive loop of `activate_endpoints_manually`
      (globus/cli.py:816-822) as a value: while `e` is not active, show the
      activation URL and wait for the person to press ENTER; ctrl-c aborts. */
  function Await(w: World, e: string): (s: Step<()>)
    requires e in w.endpoints
    ensures s.world.endpoints.Keys == w.endpoints.Keys
    decreases |w.operator|
  {
    if IsActive(w.endpoints[e]) then Step(Done(()), w, [])
    else
      match Acknowledge(w, e)
      case None => Step(Exit(Aborted), w, [Prompt(e)])
      case Some(next) =>
        var s := Await(next, e);
        Step(s.outcome, s.world, [Prompt(e)] + s.calls)
  }

  /** Waiting only ever activates `e`, and leaves the job record alone. */
  lemma {:induction false} AwaitProgress(w: World, e: string)
    requires e in w.endpoints
    ensures Progressed(w, Await(w, e).world, {e}) && Await(w, e).world.ownJob == w.ownJob
    decreases |w.operator|
  {
    if !IsActive(w.endpoints[e]) && Acknowledge(w, e).Some? {
      var next := Acknowledge(w, e).value;
      AcknowledgeProgress(w, e);
      AwaitProgress(next, e);
      ProgressedTransitive(w, next, Await(next, e).world, {e});
    }
  }

  /** Waiting ends with `e` active, or with ctrl-c once the person's script
      is used up; it shows one prompt per acknowledgement it consumes, plus
      the one answered with ctrl-c. */
  lemma {:induction false} AwaitOutcome(w: World, e: string)
    requires e in w.endpoints
    ensures Await(w, e).outcome.Done? ==> IsActive(Await(w, e).world.endpoints[e])
    ensures Await(w, e).outcome.Exit? ==>
      Await(w, e).outcome.code == Aborted && Await(w, e).world.operator == []
    ensures |Await(w, e).calls| ==
      |w.operator| - |Await(w, e).world.operator| + (if Await(w, e).outcome.Exit? then 1 else 0)
    ensures forall i :: 0 <= i < |Await(w, e).calls| ==> Await(w, e).calls[i] == Prompt(e)
    decreases |w.operator|
  {
    if !IsActive(w.endpoints[e]) && Acknowledge(w, e).Some? {
      AcknowledgeProgress(w, e);
      AwaitOutcome(Acknowledge(w, e).value, e);
    }
  }

  /** The `while not ...is_active` loop itself. */
  method AwaitActivation(w: World, e: string) returns (r: Outcome<()>, w': World, calls: seq<Event>)
    requires e in w.endpoints
    ensures Step(r, w', calls) == Await(w, e)
  {
    w', calls := w, [];
    while !IsActive(w'.endpoints[e])
      invariant e in w'.endpoints
      invariant Await(w, e) == Step(Await(w', e).outcome, Await(w', e).world, calls + Await(w', e).calls)
      decreases |w'.operator|
    {
      var prompted := calls + [Prompt(e)];
      match Acknowledge(w', e)
      case None =>
        return Exit(Aborted), w', prompted;
      case Some(next) =>
        AcknowledgeProgress(w', e);
        assert calls + ([Prompt(e)] + Await(next, e).calls) == prompted + Await(next, e).calls;
        w', calls := next, prompted;
    }
    r := Done(());
  }

  /** `activate_endpoints_manually` (globus/cli.py:809-833) as a value. Each
      endpoint is looked up first (an unknown one exits). Interactively the
      person is prompted until the endpoint is active, or aborts; nothing is
      left unresolved. Otherwise attribute `RequiredKey(idx)` of the job
      receives the endpoint at enumeration index `idx`, which stays
      unresolved. */
  function ManualPass(w: World, eps: seq<string>): (s: Step<seq<string>>)
    ensures s.world.endpoints.Keys == w.endpoints.Keys
    decreases |eps|
  {
    if eps == [] then Step(Done([]), w, [])
    else
      var idx := |eps| - 1;
      var e := eps[idx];
      var s := ManualPass(w, eps[..idx]);
      if s.outcome.Exit? then s
      else if e !in s.world.endpoints then Step(Exit(EndpointInfoError), s.world, s.calls)
      else if w.interactive then
        var a := Await(s.world, e);
        Step(if a.outcome.Exit? then Exit(Aborted) else s.outcome, a.world, s.calls + a.calls)
      else
        Step(Done(s.outcome.value + [e]), s.world.(ownJob := s.world.ownJob[RequiredKey(idx) := Value(e)]), s.calls)
  }

  /** The manual pass activates only endpoints of its list; interactively it
      leaves the job record alone; its calls are prompts about its endpoints. */
  lemma {:induction false} ManualPassProgress(w: World, eps: seq<string>)
    ensures Progressed(w, ManualPass(w, eps).world, Elements(eps))
    ensures w.interactive ==> ManualPass(w, eps).world.ownJob == w.ownJob
    ensures forall i :: 0 <= i < |ManualPass(w, eps).calls| ==>
      ManualPass(w, eps).calls[i].Prompt? && ManualPass(w, eps).calls[i].endpoint in eps
    decreases |eps|
  {
    if eps != [] {
      var idx := |eps| - 1;
      var e := eps[idx];
      var s := ManualPass(w, eps[..idx]);
      ManualPassProgress(w, eps[..idx]);
      assert Elements(eps[..idx]) <= Elements(eps);
      ProgressedWiden(w, s.world, Elements(eps[..idx]), Elements(eps));
      if s.outcome.Done? && e in s.world.endpoints && w.interactive {
        var a := Await(s.world, e);
        AwaitProgress(s.world, e);
        AwaitOutcome(s.world, e);
        ProgressedWiden(s.world, a.world, {e}, Elements(eps));
        ProgressedTransitive(w, s.world, a.world, Elements(eps));
      }
    }
  }

  /** Non-interactively the pass succeeds exactly when every endpoint is
      known; it then returns its whole input, makes no call, and records
      each endpoint under `RequiredKey` of its index. */
  lemma {:induction false} ManualPassRecords(w: World, eps: seq<string>)
    requires !w.interactive
    ensures ManualPass(w, eps).outcome.Done? <==> AllKnown(w.endpoints, eps)
    ensures ManualPass(w, eps).outcome.Exit? ==> ManualPass(w, eps).outcome.code == EndpointInfoError
    ensures ManualPass(w, eps).outcome.Done? ==>
      && ManualPass(w, eps).outcome.value == eps
      && ManualPass(w, eps).calls == []
      && ManualPass(w, eps).world == w.(ownJob := RecordRequired(w.ownJob, eps))
    decreases |eps|
  {
    if eps != [] {
      var idx := |eps| - 1;
      ManualPassRecords(w, eps[..idx]);
      ManualPassProgress(w, eps[..idx]);
      assert eps == eps[..idx] + [eps[idx]];
    }
  }

  /** Interactively the pass either aborts or unknown-exits, or ends with
      every endpoint of the list active and nothing unresolved. */
  lemma {:induction false} ManualPassInteractive(w: World, eps: seq<string>)
    requires w.interactive
    ensures ManualPass(w, eps).outcome.Exit? ==>
      ManualPass(w, eps).outcome.code == EndpointInfoError || ManualPass(w, eps).outcome.code == Aborted
    ensures ManualPass(w, eps).outcome.Done? ==>
      ManualPass(w, eps).outcome.value == [] && AllActive(ManualPass(w, eps).world.endpoints, eps)
    decreases |eps|
  {
    if eps != [] {
      var idx := |eps| - 1;
      var e := eps[idx];
      var s := ManualPass(w, eps[..idx]);
      ManualPassInteractive(w, eps[..idx]);
      if s.outcome.Done? && e in s.world.endpoints {
        var a := Await(s.world, e);
        AwaitProgress(s.world, e);
        AwaitOutcome(s.world, e);
        ProgressedMonotone(s.world, a.world, {e});
        if a.outcome.Done? {
          forall i | 0 <= i < |eps|
            ensures eps[i] in a.world.endpoints && IsActive(a.world.endpoints[eps[i]])
          {
            if i < idx {
              assert eps[..idx][i] == eps[i];
            }
          }
        }
      }
    }
  }

  /** Interactively, a list that is already active needs no prompt at all. */
  lemma {:induction false} ManualPassAlreadyActive(w: World, eps: seq<string>)
    requires w.interactive && AllActive(w.endpoints, eps)
    ensures ManualPass(w, eps) == Step(Done([]), w, [])
    decreases |eps|
  {
    if eps != [] {
      var idx := |eps| - 1;
      assert AllActive(w.endpoints, eps[..idx]);
      ManualPassAlreadyActive(w, eps[..idx]);
    }
  }

  /** The enumerate loop of `activate_endpoints_manually`, appending to
      `unactivated` and writing job attributes as it goes. */
  method ActivateEndpointsManually(w: World, eps: seq<string>)
    returns (r: Outcome<seq<string>>, w': World, calls: seq<Event>)
    ensures Step(r, w', calls) == ManualPass(w, eps)
  {
    var unactivated: seq<string> := [];
    w', calls := w, [];
    var idx := 0;
    while idx < |eps|
      invariant 0 <= idx <= |eps|
      invariant ManualPass(w, eps[..idx]) == Step(Done(unactivated), w', calls)
    {
      var e := eps[idx];
      assert eps[..idx + 1][..idx] == eps[..idx];
      if e !in w'.endpoints {
        // EndpointInfo.get_or_exit, for the activation URL
        r := Exit(EndpointInfoError);
        ManualPassExitSticks(w, eps, idx + 1);
        return;
      }
      if w.interactive {
        var waited, next, prompts := AwaitActivation(w', e);
        w', calls := next, calls + prompts;
        if waited.Exit? {
          r := Exit(Aborted);
          ManualPassExitSticks(w, eps, idx + 1);
          return;
        }
      } else {
        w' := w'.(ownJob := w'.ownJob[RequiredKey(idx) := Value(e)]);
        unactivated := unactivated + [e];
      }
      idx := idx + 1;
    }
    assert eps[..idx] == eps;
    r := Done(unactivated);
  }

  /** Once the manual pass has exited on a prefix, the rest of the list changes nothing. */
  lemma {:induction false} ManualPassExitSticks(w: World, eps: seq<string>, k: nat)
    requires k <= |eps| && ManualPass(w, eps[..k]).outcome.Exit?
    ensures ManualPass(w, eps) == ManualPass(w, eps[..k])
    decreases |eps| - k
  {
    if k < |eps| {
      assert eps[..k + 1][..k] == eps[..k];
      ManualPassExitSticks(w, eps, k + 1);
    } else {
      assert eps[..k] == eps;
    }
  }

  /** `activate_endpoints_or_exit` (globus/cli.py:779-795) as a value: the
      three passes, then the verdict. */
  function ActivateOrExit(w: World, eps: seq<string>): (s: Step<bool>)
    ensures s.outcome.Done? ==> s.outcome.value
  {
    var first := InactiveEndpoints(w.endpoints, eps);
    if first.Exit? then Step(Exit(first.code), w, [])
    else
      var a := AutoPass(w, first.value);
      var m := ManualPass(a.world, a.unresolved);
      var calls := a.calls + m.calls;
      if m.outcome.Exit? then Step(Exit(m.outcome.code), m.world, calls)
      else if |m.outcome.value| > 0 then Step(Exit(EndpointActivationError), m.world, calls)
      else Step(Done(true), m.world, calls)
  }

  /** `activate_endpoints_or_exit` itself. */
  method ActivateEndpointsOrExit(w: World, eps: seq<string>)
    returns (r: Outcome<bool>, w': World, calls: seq<Event>)
    ensures Step(r, w', calls) == ActivateOrExit(w, eps)
  {
    var first := InactiveEndpoints(w.endpoints, eps);
    if first.Exit? {
      return Exit(first.code), w, [];
    }
    var unactivated, w1, autoCalls := ActivateEndpointsAutomatically(w, first.value);
    var manual, w2, promptCalls := ActivateEndpointsManually(w1, unactivated);
    w', calls := w2, autoCalls + promptCalls;
    if manual.Exit? {
      r := Exit(manual.code);
    } else if |manual.value| > 0 {
      r := Exit(EndpointActivationError);
    } else {
      r := Done(true);
    }
  }

  /** The endpoints the first pass keeps are all known. */
  lemma PendingKnown(w: World, eps: seq<string>)
    requires AllKnown(w.endpoints, eps)
    ensures AllKnown(w.endpoints, Restrict(eps, InactiveSet(w.endpoints)))
  {
    var pending := Restrict(eps, InactiveSet(w.endpoints));
    RestrictMembers(eps, InactiveSet(w.endpoints));
    forall i | 0 <= i < |pending| ensures pending[i] in w.endpoints {
      assert pending[i] in pending;
    }
  }

  /** After the first two passes the manual pass receives exactly
      `NeedManual`, and the world has only progressed within `eps`. */
  lemma AfterAutoPass(w: World, eps: seq<string>)
    requires AllKnown(w.endpoints, eps)
    ensures AllKnown(w.endpoints, Restrict(eps, InactiveSet(w.endpoints)))
    ensures var a := AutoPass(w, Restrict(eps, InactiveSet(w.endpoints)));
      && a.unresolved == NeedManual(w.endpoints, eps)
      && AllKnown(a.world.endpoints, a.unresolved)
      && Progressed(w, a.world, Elements(eps))
      && a.world == w.(endpoints := a.world.endpoints)
  {
    var pending := Restrict(eps, InactiveSet(w.endpoints));
    PendingKnown(w, eps);
    var a := AutoPass(w, pending);
    AutoPassUnresolved(w, pending);
    AutoPassProgress(w, pending);
    RestrictMembers(eps, InactiveSet(w.endpoints));
    assert Elements(pending) <= Elements(eps);
    ProgressedWiden(w, a.world, Elements(pending), Elements(eps));
    RestrictMembers(pending, AutoFailSet(w.endpoints));
    forall i | 0 <= i < |a.unresolved| ensures a.unresolved[i] in a.world.endpoints {
      assert a.unresolved[i] in a.unresolved;
    }
  }

  /** After the first two passes every endpoint of `eps` outside
      `NeedManual` is active. */
  lemma AfterAutoPassActive(w: World, eps: seq<string>)
    requires AllKnown(w.endpoints, eps)
    ensures AllKnown(w.endpoints, Restrict(eps, InactiveSet(w.endpoints)))
    ensures var a := AutoPass(w, Restrict(eps, InactiveSet(w.endpoints)));
      forall i :: 0 <= i < |eps| && eps[i] !in NeedManual(w.endpoints, eps) ==>
        eps[i] in a.world.endpoints && IsActive(a.world.endpoints[eps[i]])
  {
    var pending := Restrict(eps, InactiveSet(w.endpoints));
    PendingKnown(w, eps);
    var a := AutoPass(w, pending);
    AutoPassProgress(w, pending);
    AutoPassActivates(w, pending);
    ProgressedMonotone(w, a.world, Elements(pending));
    RestrictMembers(eps, InactiveSet(w.endpoints));
    RestrictMembers(pending, AutoFailSet(w.endpoints));
    forall i | 0 <= i < |eps| && eps[i] !in NeedManual(w.endpoints, eps)
      ensures eps[i] in a.world.endpoints && IsActive(a.world.endpoints[eps[i]])
    {
      if !IsActive(w.endpoints[eps[i]]) {
        assert eps[i] in pending;
      }
    }
  }

  /** An unknown endpoint ends the command before any call. */
  lemma ActivateOrExitUnknown(w: World, eps: seq<string>)
    requires !AllKnown(w.endpoints, eps)
    ensures ActivateOrExit(w, eps) == Step(Exit(EndpointInfoError), w, [])
  {
  }

  /** A manual pass that leaves nothing unresolved leaves its whole list
      active (non-interactively that list was empty). */
  lemma ManualPassDoneActive(w: World, eps: seq<string>)
    requires ManualPass(w, eps).outcome == Done([])
    ensures AllActive(ManualPass(w, eps).world.endpoints, eps)
  {
    if w.interactive {
      ManualPassInteractive(w, eps);
    } else {
      ManualPassRecords(w, eps);
    }
  }

  /** Success means every endpoint of the list is active. */
  lemma ActivateOrExitActive(w: World, eps: seq<string>)
    requires ActivateOrExit(w, eps).outcome.Done?
    ensures AllActive(ActivateOrExit(w, eps).world.endpoints, eps)
  {
    var first := InactiveEndpoints(w.endpoints, eps);
    assert first.Done?;
    var pending := first.value;
    AfterAutoPass(w, eps);
    AfterAutoPassActive(w, eps);
    var a := AutoPass(w, pending);
    var m := ManualPass(a.world, a.unresolved);
    assert m.outcome == Done([]) && ActivateOrExit(w, eps).world == m.world;
    ManualPassDoneActive(a.world, a.unresolved);
    ManualPassProgress(a.world, a.unresolved);
    ProgressedMonotone(a.world, m.world, Elements(a.unresolved));
    forall i | 0 <= i < |eps|
      ensures eps[i] in m.world.endpoints && IsActive(m.world.endpoints[eps[i]])
    {
      if eps[i] in a.unresolved {
        var j :| 0 <= j < |a.unresolved| && a.unresolved[j] == eps[i];
      }
    }
  }

  /** How the orchestrator can fail: an unknown endpoint, endpoints left
      for manual activation when nobody is at the terminal, or ctrl-c. The
      activation error happens exactly when, non-interactively, some
      endpoint is inactive and its auto-activation fails. */
  lemma ActivateOrExitFailures(w: World, eps: seq<string>)
    ensures ActivateOrExit(w, eps).outcome.Exit? ==>
      var code := ActivateOrExit(w, eps).outcome.code;
      code == EndpointInfoError || code == EndpointActivationError || (w.interactive && code == Aborted)
    ensures ActivateOrExit(w, eps).outcome == Exit(EndpointActivationError) <==>
      !w.interactive && AllKnown(w.endpoints, eps) && NeedManual(w.endpoints, eps) != []
  {
    if AllKnown(w.endpoints, eps) {
      AfterAutoPass(w, eps);
      var a := AutoPass(w, Restrict(eps, InactiveSet(w.endpoints)));
      if w.interactive {
        ManualPassInteractive(a.world, a.unresolved);
      } else {
        ManualPassRecords(a.world, a.unresolved);
      }
    }
  }

  /** The orchestrator only activates endpoints of its list; non-interactively
      the job record receives `RequiredKey(i)` for the i-th endpoint left
      after the automatic pass, interactively it is left alone. */
  lemma ActivateOrExitEffects(w: World, eps: seq<string>)
    ensures Progressed(w, ActivateOrExit(w, eps).world, Elements(eps))
    ensures w.interactive ==> ActivateOrExit(w, eps).world.ownJob == w.ownJob
    ensures !w.interactive && AllKnown(w.endpoints, eps) ==>
      ActivateOrExit(w, eps).world.ownJob == RecordRequired(w.ownJob, NeedManual(w.endpoints, eps))
  {
    if AllKnown(w.endpoints, eps) {
      AfterAutoPass(w, eps);
      var a := AutoPass(w, Restrict(eps, InactiveSet(w.endpoints)));
      var m := ManualPass(a.world, a.unresolved);
      ManualPassProgress(a.world, a.unresolved);
      RestrictMembers(Restrict(eps, InactiveSet(w.endpoints)), AutoFailSet(w.endpoints));
      RestrictMembers(eps, InactiveSet(w.endpoints));
      assert Elements(a.unresolved) <= Elements(eps);
      ProgressedWiden(a.world, m.world, Elements(a.unresolved), Elements(eps));
      ProgressedTransitive(w, a.world, m.world, Elements(eps));
      if !w.interactive {
        ManualPassRecords(a.world, a.unresolved);
      }
    }
  }

  /** The calls: one auto-activation per inactive endpoint, in input order,
      then only prompts, each about an endpoint whose auto-activation failed. */
  lemma ActivateOrExitCalls(w: World, eps: seq<string>)
    requires AllKnown(w.endpoints, eps)
    ensures var pending := Restrict(eps, InactiveSet(w.endpoints));
      var calls := ActivateOrExit(w, eps).calls;
      && |pending| <= |calls|
      && (forall i :: 0 <= i < |pending| ==> calls[i] == AutoActivate(pending[i]))
      && (forall i :: |pending| <= i < |calls| ==>
            calls[i].Prompt? && calls[i].endpoint in NeedManual(w.endpoints, eps))
  {
    var pending := Restrict(eps, InactiveSet(w.endpoints));
    AfterAutoPass(w, eps);
    AutoPassCalls(w, pending);
    var a := AutoPass(w, pending);
    var m := ManualPass(a.world, a.unresolved);
    ManualPassProgress(a.world, a.unresolved);
    assert InactiveEndpoints(w.endpoints, eps) == Done(pending);
    var calls := a.calls + m.calls;
    assert ActivateOrExit(w, eps).calls == calls;
    forall i | |pending| <= i < |calls|
      ensures calls[i].Prompt? && calls[i].endpoint in NeedManual(w.endpoints, eps)
    {
      assert calls[i] == m.calls[i - |pending|];
    }
  }

  /** When nothing is left for manual activation the orchestrator succeeds
      and touches neither the job record nor the person's script. */
  lemma ActivateOrExitNothingManual(w: World, eps: seq<string>)
    requires AllKnown(w.endpoints, eps) && NeedManual(w.endpoints, eps) == []
    ensures ActivateOrExit(w, eps).outcome == Done(true)
    ensures ActivateOrExit(w, eps).world == w.(endpoints := ActivateOrExit(w, eps).world.endpoints)
  {
    var pending := Restrict(eps, InactiveSet(w.endpoints));
    assert InactiveEndpoints(w.endpoints, eps) == Done(pending);
    AfterAutoPass(w, eps);
    var a := AutoPass(w, pending);
    assert ManualPass(a.world, []) == Step(Done([]), a.world, []);
  }

  /** When every endpoint is active already the orchestrator makes no call
      and changes nothing. */
  lemma ActivateOrExitAllActive(w: World, eps: seq<string>)
    requires AllActive(w.endpoints, eps)
    ensures ActivateOrExit(w, eps) == Step(Done(true), w, [])
  {
    RestrictNone(eps, InactiveSet(w.endpoints));
    assert InactiveEndpoints(w.endpoints, eps) == Done([]);
    assert AutoPass(w, []) == Pass([], w, []);
  }
}
