/** `release` of globus/cli.py (globus/cli.py:719-743): for each held
    transfer job, resolve the manual activations its attributes ask for,
    reset those attributes and release the job. */
module Release {
  import opened Outcomes
  import opened Service
  import opened JobAttributes
  import opened Activation

  /** A job of the scheduler: its cluster id and its attributes. */
  datatype Job = Job(clusterId: int, attrs: map<string, AttrValue>)

  /** `k` names an activation request that is still open: its name starts
      with the prefix and its value is not `Undefined`. */
  predicate IsPendingKey(attrs: map<string, AttrValue>, k: string) {
    k in attrs && IsRequiredKey(k) && attrs[k].Value?
  }

  /** Writing the `Undefined` sentinel closes a request, and writing an
      endpoint under a recorded key opens one for that endpoint. */
  lemma PendingKeySentinel(attrs: map<string, AttrValue>, idx: nat, e: string)
    ensures !IsPendingKey(attrs[RequiredKey(idx) := Undefined], RequiredKey(idx))
    ensures IsPendingKey(attrs[RequiredKey(idx) := Value(e)], RequiredKey(idx))
  {
  }

  /** The endpoints the open requests among `keys` name. */
  ghost function PendingAmong(attrs: map<string, AttrValue>, keys: set<string>): set<string> {
    set k | k in keys && IsPendingKey(attrs, k) :: attrs[k].text
  }

  /** The endpoints a job's open activation requests name. */
  ghost function PendingEndpoints(attrs: map<string, AttrValue>): set<string> {
    PendingAmong(attrs, attrs.Keys)
  }

  lemma PendingMember(attrs: map<string, AttrValue>, k: string)
    requires IsPendingKey(attrs, k)
    ensures attrs[k].text in PendingEndpoints(attrs)
  {
  }

  /** `keyOf` is a possible value of the `{v: k ...}` comprehension: one
      entry per named endpoint, mapping it to an open request naming it. */
  ghost predicate KeyChoice(attrs: map<string, AttrValue>, keyOf: map<string, string>) {
    && keyOf.Keys == PendingEndpoints(attrs)
    && forall v :: v in keyOf ==> IsPendingKey(attrs, keyOf[v]) && attrs[keyOf[v]] == Value(v)
  }

  predicate Distinct(s: seq<string>) {
    forall i, j :: 0 <= i < j < |s| ==> s[i] != s[j]
  }

  /** The attributes after `set_job_attr(k, "Undefined")` for each `k` in `keys`. */
  function Cleared(attrs: map<string, AttrValue>, keys: set<string>): (r: map<string, AttrValue>)
    ensures r.Keys == attrs.Keys
  {
    map k | k in attrs :: if k in keys then Undefined else attrs[k]
  }

  /** `after` differs from `before` only in open requests that were reset. */
  ghost predicate ResetOnly(before: map<string, AttrValue>, after: map<string, AttrValue>) {
    && after.Keys == before.Keys
    && forall k :: k in before ==> after[k] == before[k] || (IsPendingKey(before, k) && after[k] == Undefined)
  }

  /** Every endpoint `before` asks for has a request naming it reset in `after`. */
  ghost predicate Resolved(before: map<string, AttrValue>, after: map<string, AttrValue>) {
    forall v :: v in PendingEndpoints(before) ==>
      exists k :: IsPendingKey(before, k) && before[k] == Value(v) && k in after && after[k] == Undefined
  }

  /** Resetting the keys a `KeyChoice` picks touches only open requests and
      resolves every endpoint the job asks for. */
  lemma ClearedResolves(attrs: map<string, AttrValue>, keyOf: map<string, string>)
    requires KeyChoice(attrs, keyOf)
    ensures ResetOnly(attrs, Cleared(attrs, keyOf.Values))
    ensures Resolved(attrs, Cleared(attrs, keyOf.Values))
  {
    var after := Cleared(attrs, keyOf.Values);
    forall k | k in attrs && k in keyOf.Values
      ensures IsPendingKey(attrs, k)
    {
      var v :| v in keyOf && keyOf[v] == k;
    }
    forall v | v in PendingEndpoints(attrs)
      ensures exists k :: IsPendingKey(attrs, k) && attrs[k] == Value(v) && k in after && after[k] == Undefined
    {
      var k := keyOf[v];
      assert k in keyOf.Values;
    }
  }

  /** With no request to reset the attributes stay as they are. */
  lemma ClearedNothing(attrs: map<string, AttrValue>)
    ensures Cleared(attrs, {}) == attrs
  {
  }

  /** When no two open requests name the same endpoint, nothing is left
      open after `release`; otherwise the comprehension keeps one key per
      endpoint and the others stay open (see `DuplicateStaysOpen`). */
  lemma ClearedAllWhenDistinct(attrs: map<string, AttrValue>, keyOf: map<string, string>)
    requires KeyChoice(attrs, keyOf)
    requires forall k1, k2 :: IsPendingKey(attrs, k1) && IsPendingKey(attrs, k2) && attrs[k1] == attrs[k2] ==> k1 == k2
    ensures PendingEndpoints(Cleared(attrs, keyOf.Values)) == {}
  {
    var after := Cleared(attrs, keyOf.Values);
    forall k | IsPendingKey(attrs, k)
      ensures k in keyOf.Values
    {
      var v := attrs[k].text;
      assert v in PendingEndpoints(attrs);
      assert keyOf[v] in keyOf.Values;
    }
    forall k | k in after
      ensures !IsPendingKey(after, k)
    {
      if IsPendingKey(attrs, k) {
        assert k in keyOf.Values;
      }
    }
  }

  /** Two requests naming one endpoint (a transfer within one endpoint
      records it at index 0 and at index 1): the comprehension keeps one
      of the two keys, and the other request stays open after the reset. */
  lemma DuplicateStaysOpen(e: string)
    ensures var attrs := map[RequiredKey(0) := Value(e), RequiredKey(1) := Value(e)];
      var keyOf := map[e := RequiredKey(1)];
      && KeyChoice(attrs, keyOf)
      && e in PendingEndpoints(Cleared(attrs, keyOf.Values))
  {
    var attrs := map[RequiredKey(0) := Value(e), RequiredKey(1) := Value(e)];
    var keyOf := map[e := RequiredKey(1)];
    RequiredKeyRoundTrip(0);
    RequiredKeyRoundTrip(1);
    RequiredKeysDistinct(0, 1);
    assert IsPendingKey(attrs, RequiredKey(0));
    assert PendingEndpoints(attrs) == {e};
    var after := Cleared(attrs, keyOf.Values);
    assert IsPendingKey(after, RequiredKey(0));
  }

  /** What a non-interactive run records is what `release` later resolves:
      on a job with no open request, recording a list opens requests for
      exactly the endpoints of that list. */
  lemma RecordedArePending(attrs: map<string, AttrValue>, eps: seq<string>)
    requires PendingEndpoints(attrs) == {}
    ensures PendingEndpoints(RecordRequired(attrs, eps)) == Elements(eps)
  {
    var after := RecordRequired(attrs, eps);
    RecordRequiredValues(attrs, eps);
    RecordRequiredKeys(attrs, eps);
    forall v | v in Elements(eps)
      ensures v in PendingEndpoints(after)
    {
      var i :| 0 <= i < |eps| && eps[i] == v;
      RequiredKeyRoundTrip(i);
      assert IsPendingKey(after, RequiredKey(i));
    }
    forall v | v in PendingEndpoints(after)
      ensures v in Elements(eps)
    {
      var k :| k in after && IsPendingKey(after, k) && after[k].text == v;
      if k in attrs && (forall i :: 0 <= i < |eps| ==> k != RequiredKey(i)) {
        RecordRequiredOthers(attrs, eps, k);
        PendingMember(attrs, k);
        assert false;
      } else {
        var i :| 0 <= i < |eps| && k == RequiredKey(i);
      }
    }
  }

  /** The dictionary comprehension of globus/cli.py:730-735, iterating over
      the attributes in the (unspecified) order the ClassAd gives them; a
      later key naming the same endpoint replaces the earlier one, and
      `endpoints` lists the endpoints in first-insertion order, as
      `manual_endpoints.keys()` does. */
  method PendingActivations(attrs: map<string, AttrValue>) returns (endpoints: seq<string>, keyOf: map<string, string>)
    ensures KeyChoice(attrs, keyOf)
    ensures Elements(endpoints) == keyOf.Keys && Distinct(endpoints)
  {
    endpoints, keyOf := [], map[];
    var remaining := attrs.Keys;
    while remaining != {}
      invariant remaining <= attrs.Keys
      invariant keyOf.Keys == PendingAmong(attrs, attrs.Keys - remaining)
      invariant forall v :: v in keyOf ==> IsPendingKey(attrs, keyOf[v]) && attrs[keyOf[v]] == Value(v)
      invariant Elements(endpoints) == keyOf.Keys && Distinct(endpoints)
      decreases remaining
    {
      var k :| k in remaining;
      assert PendingAmong(attrs, attrs.Keys - (remaining - {k})) ==
        PendingAmong(attrs, attrs.Keys - remaining) + (if IsPendingKey(attrs, k) then {attrs[k].text} else {});
      remaining := remaining - {k};
      if IsRequiredKey(k) && attrs[k] != Undefined {
        var v := attrs[k].text;
        if v !in keyOf {
          endpoints := endpoints + [v];
        }
        keyOf := keyOf[v := k];
      }
    }
    assert attrs.Keys - remaining == attrs.Keys;
  }

  /** `for k in manual_endpoints.values(): set_job_attr(k, "Undefined")`. */
  method ClearPending(attrs: map<string, AttrValue>, endpoints: seq<string>, keyOf: map<string, string>)
    returns (after: map<string, AttrValue>)
    requires Elements(endpoints) == keyOf.Keys
    requires forall v :: v in keyOf ==> keyOf[v] in attrs
    ensures after == Cleared(attrs, keyOf.Values)
  {
    after := attrs;
    ghost var done: set<string> := {};
    var i := 0;
    while i < |endpoints|
      invariant 0 <= i <= |endpoints|
      invariant done <= keyOf.Values
      invariant forall j :: 0 <= j < i ==> keyOf[endpoints[j]] in done
      invariant after == Cleared(attrs, done)
    {
      var k := keyOf[endpoints[i]];
      assert Cleared(attrs, done)[k := Undefined] == Cleared(attrs, done + {k});
      after := after[k := Undefined];
      done := done + {k};
      i := i + 1;
    }
    assert done == keyOf.Values by {
      forall k | k in keyOf.Values ensures k in done {
        var v :| v in keyOf && keyOf[v] == k;
        assert v in Elements(endpoints);
        var j :| 0 <= j < |endpoints| && endpoints[j] == v;
      }
    }
  }

  /** What one job's handling gives, as the loop body of globus/cli.py:728-740
      computes it: with no open request nothing happens; otherwise the
      login is checked, the manual pass runs over the named endpoints, its
      result is ignored, and one request per endpoint is reset. An exit in
      the manual pass ends the command before any reset. */
  ghost predicate HandledJob(w: World, job: Job, order: seq<string>, keyOf: map<string, string>,
                             r: Outcome<()>, w': World, job': Job, calls: seq<Event>) {
    && KeyChoice(job.attrs, keyOf) && Elements(order) == keyOf.Keys
    && (keyOf == map[] ==> r == Done(()) && w' == w && job' == job && calls == [])
    && (keyOf != map[] && !w.loggedIn ==> r == Exit(AuthorizationError) && w' == w && job' == job && calls == [])
    && (keyOf != map[] && w.loggedIn ==>
          var m := ManualPass(w, order);
          && w' == m.world && calls == m.calls
          && (m.outcome.Exit? ==> r == Exit(m.outcome.code) && job' == job)
          && (m.outcome.Done? ==> r == Done(()) && job' == job.(attrs := Cleared(job.attrs, keyOf.Values))))
  }

  /** What handling one job guarantees: on success the job is handled as
      `JobHandled` says, with one request per endpoint reset; an exit
      happens only for a job with open requests, and is the login error
      exactly when the login is missing; the world only progresses;
      interactively every endpoint the job asks for ends active; and
      non-interactively, with a login and known endpoints, it never exits,
      whatever the manual pass leaves unresolved. */
  lemma HandledJobFacts(w: World, job: Job, order: seq<string>, keyOf: map<string, string>,
                        r: Outcome<()>, w': World, job': Job, calls: seq<Event>)
    requires HandledJob(w, job, order, keyOf, r, w', job', calls)
    ensures r.Done? ==> JobHandled(job, job')
    ensures r.Exit? ==>
      && job' == job && PendingEndpoints(job.attrs) != {}
      && (r.code == AuthorizationError <==> !w.loggedIn)
      && (r.code == AuthorizationError || r.code == EndpointInfoError || (w.interactive && r.code == Aborted))
    ensures Progressed(w, w', w.endpoints.Keys)
    ensures w.interactive && r.Done? ==> ActiveFor(w'.endpoints, job.attrs)
    ensures !w.interactive && w.loggedIn && KnownFor(w.endpoints, job.attrs) ==> r.Done?
    ensures PendingEndpoints(job.attrs) == {} ==> r == Done(()) && w' == w && job' == job && calls == []
  {
    assert keyOf == map[] <==> PendingEndpoints(job.attrs) == {} by {
      if keyOf.Keys == {} {
        assert keyOf == map[];
      }
    }
    if keyOf == map[] || !w.loggedIn {
      ClearedNothing(job.attrs);
      if keyOf == map[] {
        assert keyOf.Values == {};
        assert KeyChoice(job.attrs, keyOf);
      }
      return;
    }
    ManualPassProgress(w, order);
    ProgressedKnown(w, w', Elements(order));
    if w.interactive {
      ManualPassInteractive(w, order);
      if r.Done? {
        forall v | v in PendingEndpoints(job.attrs)
          ensures v in w'.endpoints && IsActive(w'.endpoints[v])
        {
          assert v in Elements(order);
          var j :| 0 <= j < |order| && order[j] == v;
        }
      }
    } else {
      ManualPassRecords(w, order);
      if forall v :: v in PendingEndpoints(job.attrs) ==> v in w.endpoints {
        forall j | 0 <= j < |order| ensures order[j] in w.endpoints {
          assert order[j] in Elements(order);
        }
      }
    }
    if r.Done? {
      assert KeyChoice(job.attrs, keyOf);
    }
  }

  /** Handling one job resets only its open requests, and on success one
      request for every endpoint it asks for; an exit leaves it as it was. */
  lemma HandledJobResets(w: World, job: Job, order: seq<string>, keyOf: map<string, string>,
                         r: Outcome<()>, w': World, job': Job, calls: seq<Event>)
    requires HandledJob(w, job, order, keyOf, r, w', job', calls)
    ensures job'.clusterId == job.clusterId && ResetOnly(job.attrs, job'.attrs)
    ensures r.Done? ==> Resolved(job.attrs, job'.attrs)
    ensures r.Exit? ==> job' == job
  {
    if r.Done? && keyOf != map[] && w.loggedIn {
      ClearedResolves(job.attrs, keyOf);
    } else if keyOf == map[] {
      assert keyOf.Values == {};
      ClearedNothing(job.attrs);
      ClearedResolves(job.attrs, keyOf);
    }
  }

  /** One job of the loop (globus/cli.py:728-740). */
  method ResolveJob(w: World, job: Job)
    returns (r: Outcome<()>, w': World, job': Job, order: seq<string>, keyOf: map<string, string>, calls: seq<Event>)
    ensures HandledJob(w, job, order, keyOf, r, w', job', calls) && Distinct(order)
  {
    order, keyOf := PendingActivations(job.attrs);
    w', job', calls := w, job, [];
    if |keyOf| == 0 {
      return Done(()), w', job', order, keyOf, calls;
    }
    if !w.loggedIn {
      return Exit(AuthorizationError), w', job', order, keyOf, calls;
    }
    var manual;
    manual, w', calls := ActivateEndpointsManually(w, order);
    if manual.Exit? {
      return Exit(manual.code), w', job', order, keyOf, calls;
    }
    var attrs := ClearPending(job.attrs, order, keyOf);
    job' := job.(attrs := attrs);
    r := Done(());
  }

  /** The jobs before `n` have no open request. */
  ghost predicate NothingPendingBefore(jobs: seq<Job>, n: int) {
    forall i :: 0 <= i < n && i < |jobs| ==> PendingEndpoints(jobs[i].attrs) == {}
  }

  /** Every endpoint a job asks for is known and active. */
  ghost predicate ActiveFor(endpoints: map<string, Endpoint>, attrs: map<string, AttrValue>) {
    forall v :: v in PendingEndpoints(attrs) ==> v in endpoints && IsActive(endpoints[v])
  }

  /** Every endpoint a job asks for is known. */
  ghost predicate KnownFor(endpoints: map<string, Endpoint>, attrs: map<string, AttrValue>) {
    forall v :: v in PendingEndpoints(attrs) ==> v in endpoints
  }

  lemma ActiveForKept(w: World, w': World, touched: set<string>, attrs: map<string, AttrValue>)
    requires Progressed(w, w', touched) && ActiveFor(w.endpoints, attrs)
    ensures ActiveFor(w'.endpoints, attrs)
  {
    ProgressedMonotone(w, w', touched);
  }

  /** Job `after` is job `before` once handled: same cluster, and its
      attributes are those of `before` with the one request the
      comprehension keeps per endpoint reset. */
  ghost predicate JobHandled(before: Job, after: Job) {
    && before.clusterId == after.clusterId
    && exists keyOf :: KeyChoice(before.attrs, keyOf) && after.attrs == Cleared(before.attrs, keyOf.Values)
  }

  /** A handled job had only open requests reset, and one for every endpoint it asked for. */
  lemma JobHandledResolves(before: Job, after: Job)
    requires JobHandled(before, after)
    ensures ResetOnly(before.attrs, after.attrs) && Resolved(before.attrs, after.attrs)
  {
    var keyOf :| KeyChoice(before.attrs, keyOf) && after.attrs == Cleared(before.attrs, keyOf.Values);
    ClearedResolves(before.attrs, keyOf);
  }

  /** Two open requests naming one endpoint: whichever key the
      comprehension keeps, resetting it leaves the other request open. */
  lemma ClearedDuplicateStaysOpen(attrs: map<string, AttrValue>, keyOf: map<string, string>, k0: string, k1: string)
    requires KeyChoice(attrs, keyOf)
    requires k0 != k1 && IsPendingKey(attrs, k0) && IsPendingKey(attrs, k1) && attrs[k0] == attrs[k1]
    ensures attrs[k0].text in PendingEndpoints(Cleared(attrs, keyOf.Values))
  {
    var e := attrs[k0].text;
    PendingMember(attrs, k0);
    var kept := keyOf[e];
    var other := if kept == k0 then k1 else k0;
    forall v | v in keyOf
      ensures keyOf[v] != other
    {
      if v == e {
        assert keyOf[v] == kept;
      } else {
        assert attrs[keyOf[v]] == Value(v);
      }
    }
    var after := Cleared(attrs, keyOf.Values);
    assert other !in keyOf.Values;
    assert IsPendingKey(after, other) && after[other] == Value(e);
    PendingMember(after, other);
  }

  /** Handling a job in which two open requests name one endpoint leaves
      that endpoint asked for. */
  lemma JobHandledDuplicate(before: Job, after: Job, k0: string, k1: string)
    requires JobHandled(before, after)
    requires k0 != k1 && IsPendingKey(before.attrs, k0) && IsPendingKey(before.attrs, k1)
    requires before.attrs[k0] == before.attrs[k1]
    ensures before.attrs[k0].text in PendingEndpoints(after.attrs)
  {
    var keyOf :| KeyChoice(before.attrs, keyOf) && after.attrs == Cleared(before.attrs, keyOf.Values);
    ClearedDuplicateStaysOpen(before.attrs, keyOf, k0, k1);
  }

  /** The first `n` jobs are handled and the others untouched. */
  ghost predicate HandledPrefix(jobs: seq<Job>, jobs': seq<Job>, n: int) {
    && |jobs'| == |jobs|
    && (forall i {:trigger JobHandled(jobs[i], jobs'[i])} :: 0 <= i < n && i < |jobs| ==> JobHandled(jobs[i], jobs'[i]))
    && (forall i :: n <= i < |jobs| && 0 <= i ==> jobs'[i] == jobs[i])
  }

  lemma HandledPrefixStep(jobs: seq<Job>, jobs': seq<Job>, n: nat, job': Job)
    requires HandledPrefix(jobs, jobs', n) && n < |jobs| && JobHandled(jobs[n], job')
    ensures HandledPrefix(jobs, jobs'[n := job'], n + 1)
  {
    var after := jobs'[n := job'];
    forall i | 0 <= i < n + 1
      ensures JobHandled(jobs[i], after[i])
    {
      if i < n {
        assert after[i] == jobs'[i] && JobHandled(jobs[i], jobs'[i]);
      }
    }
  }

  /** Across the run every job keeps its cluster id and only its open
      requests change, and each handled job has a request reset for every
      endpoint it asked for. */
  lemma HandledPrefixResets(jobs: seq<Job>, jobs': seq<Job>, n: int)
    requires HandledPrefix(jobs, jobs', n)
    ensures forall i :: 0 <= i < |jobs| ==>
      jobs'[i].clusterId == jobs[i].clusterId && ResetOnly(jobs[i].attrs, jobs'[i].attrs)
    ensures forall i :: 0 <= i < n && i < |jobs| ==> Resolved(jobs[i].attrs, jobs'[i].attrs)
  {
    forall i | 0 <= i < |jobs|
      ensures jobs'[i].clusterId == jobs[i].clusterId && ResetOnly(jobs[i].attrs, jobs'[i].attrs)
      ensures i < n ==> Resolved(jobs[i].attrs, jobs'[i].attrs)
    {
      if i < n {
        JobHandledResolves(jobs[i], jobs'[i]);
      } else {
        assert jobs'[i] == jobs[i];
      }
    }
  }

  /** `released` holds the cluster ids of the first jobs, in order. */
  predicate ReleasedIds(released: seq<int>, jobs: seq<Job>) {
    |released| <= |jobs| && forall i :: 0 <= i < |released| ==> released[i] == jobs[i].clusterId
  }

  lemma ReleasedIdsStep(released: seq<int>, jobs: seq<Job>)
    requires ReleasedIds(released, jobs) && |released| < |jobs|
    ensures ReleasedIds(released + [jobs[|released|].clusterId], jobs)
  {
  }

  /** Every endpoint the first `n` jobs ask for is known and active. */
  ghost predicate ActiveUpTo(endpoints: map<string, Endpoint>, jobs: seq<Job>, n: int) {
    forall i :: 0 <= i < n && i < |jobs| ==> ActiveFor(endpoints, jobs[i].attrs)
  }

  lemma ActiveUpToStep(w: World, w': World, touched: set<string>, jobs: seq<Job>, n: nat)
    requires Progressed(w, w', touched) && ActiveUpTo(w.endpoints, jobs, n)
    requires n < |jobs| && ActiveFor(w'.endpoints, jobs[n].attrs)
    ensures ActiveUpTo(w'.endpoints, jobs, n + 1)
  {
    forall i | 0 <= i < n
      ensures ActiveFor(w'.endpoints, jobs[i].attrs)
    {
      ActiveForKept(w, w', touched, jobs[i].attrs);
    }
  }

  /** The whole command. Jobs are released in order, each after its
      requests are handled, whether it had any or not; an exit stops the
      loop at a job that had open requests, with the jobs after it left
      alone. A missing login only matters for jobs with open requests, and
      the manual pass's unresolved list never stops the loop. */
  method Release(w: World, jobs: seq<Job>)
    returns (r: Outcome<()>, w': World, jobs': seq<Job>, released: seq<int>, calls: seq<Event>)
    ensures |released| <= |jobs|
    ensures forall i :: 0 <= i < |released| ==> released[i] == jobs[i].clusterId
    ensures r.Done? <==> |released| == |jobs|
    ensures r.Exit? ==>
      && PendingEndpoints(jobs[|released|].attrs) != {}
      && (r.code == AuthorizationError <==> !w.loggedIn)
      && (r.code == AuthorizationError || r.code == EndpointInfoError || (w.interactive && r.code == Aborted))
    ensures HandledPrefix(jobs, jobs', |released|)
    ensures Progressed(w, w', w.endpoints.Keys)
    ensures w.interactive && r.Done? ==> ActiveUpTo(w'.endpoints, jobs, |jobs|)
    ensures !w.interactive && w.loggedIn && (forall i :: 0 <= i < |jobs| ==> KnownFor(w.endpoints, jobs[i].attrs)) ==>
      r.Done?
    ensures NothingPendingBefore(jobs, |jobs|) ==> r.Done? && w' == w && jobs' == jobs && calls == []
  {
    w', jobs', released, calls := w, jobs, [], [];
    var idx := 0;
    while idx < |jobs|
      invariant 0 <= idx <= |jobs| && |released| == idx
      invariant ReleasedIds(released, jobs)
      invariant HandledPrefix(jobs, jobs', idx)
      invariant Progressed(w, w', w.endpoints.Keys)
      invariant w.interactive ==> ActiveUpTo(w'.endpoints, jobs, idx)
      invariant NothingPendingBefore(jobs, idx) ==> w' == w && jobs' == jobs && calls == []
    {
      var job := jobs[idx];
      ghost var before := w';
      var res, next, job', order, keyOf, more := ResolveJob(w', job);
      HandledJobFacts(before, job, order, keyOf, res, next, job', more);
      ProgressedTransitive(w, before, next, w.endpoints.Keys);
      if res.Exit? {
        return Exit(res.code), next, jobs', released, calls + more;
      }
      HandledPrefixStep(jobs, jobs', idx, job');
      ReleasedIdsStep(released, jobs);
      if w.interactive {
        ActiveUpToStep(before, next, before.endpoints.Keys, jobs, idx);
      }
      if NothingPendingBefore(jobs, idx + 1) {
        assert NothingPendingBefore(jobs, idx) && PendingEndpoints(job.attrs) == {};
        assert next == before && more == [] && job' == job;
        assert jobs'[idx := job'] == jobs';
      }
      w', jobs', released, calls := next, jobs'[idx := job'], released + [job.clusterId], calls + more;
      idx := idx + 1;
    }
    r := Done(());
  }
}
