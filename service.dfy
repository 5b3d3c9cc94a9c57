/** The outside world as one command invocation sees it: the Globus transfer
    service, the person at the terminal and the job record the process runs
    as. The services are not modelled beyond the answers they give. */
module Service {
  import opened Outcomes
  import opened TransferSpecs
  import opened JobAttributes

  /** The JSON value of an endpoint document's `"activated"` field. */
  datatype JsonValue = JBool(b: bool) | JNull | JInt(i: int) | JString(s: string)

  /** An endpoint known to the transfer service: its `"activated"` field and
      the response code `endpoint_autoactivate` would give for it. */
  datatype Endpoint = Endpoint(activated: JsonValue, autoCode: string)

  /** `loggedIn`: a refresh token is available. `endpoints`: the endpoints the
      service knows. `interactive`: `is_interactive()`. `operator`: what the
      person at the terminal does at each successive confirmation prompt
      (true: activated the endpoint in a browser first; the script running
      out is ctrl-c). `ownJob`: attributes of the job this process runs as. */
  datatype World = World(
    loggedIn: bool,
    endpoints: map<string, Endpoint>,
    interactive: bool,
    operator: seq<bool>,
    ownJob: map<string, AttrValue>)

  /** Calls with an effect outside the process, in the order they are made. */
  datatype Event =
    | AutoActivate(endpoint: string)
    | Prompt(endpoint: string)
    | Submit(source: string, destination: string, items: seq<Item>)

  /** What a step of the command gives: how it ends, the world after it and its calls. */
  datatype Step<+T> = Step(outcome: Outcome<T>, world: World, calls: seq<Event>)

  const AUTO_ACTIVATION_FAILED: string := "AutoActivationFailed"

  /** `info["activated"] is True`: only the JSON value `true` counts, not a
      truthy value such as `1` or `"true"` (globus.py:201-202). The status
      `EndpointInfo.is_active` of globus/cli.py is taken to be this test. */
  predicate IsActive(ep: Endpoint) {
    ep.activated == JBool(true)
  }

  /** `endpoint_autoactivate(e)`: the service answers with the endpoint's
      code, and has activated the endpoint unless the code is
      `AutoActivationFailed`. */
  function AutoActivation(w: World, e: string): (r: (string, World))
    requires e in w.endpoints
    ensures r.0 == w.endpoints[e].autoCode
    ensures r.1 == w.(endpoints := r.1.endpoints) && r.1.endpoints.Keys == w.endpoints.Keys
    ensures r.0 == AUTO_ACTIVATION_FAILED ==> r.1 == w
    ensures r.0 != AUTO_ACTIVATION_FAILED ==> IsActive(r.1.endpoints[e])
    ensures forall v :: v in w.endpoints && v != e ==> r.1.endpoints[v] == w.endpoints[v]
  {
    var ep := w.endpoints[e];
    if ep.autoCode == AUTO_ACTIVATION_FAILED then (ep.autoCode, w)
    else (ep.autoCode, w.(endpoints := w.endpoints[e := ep.(activated := JBool(true))]))
  }

  /** The person presses ENTER at a confirmation prompt about `e`, having
      activated `e` or not; `None` is ctrl-c, which aborts the command. */
  function Acknowledge(w: World, e: string): (r: Option<World>)
    requires e in w.endpoints
    ensures r.None? <==> w.operator == []
    ensures r.Some? ==>
      && r.value == w.(operator := w.operator[1..], endpoints := r.value.endpoints)
      && r.value.endpoints.Keys == w.endpoints.Keys
      && (IsActive(r.value.endpoints[e]) <==> w.operator[0] || IsActive(w.endpoints[e]))
      && (forall v :: v in w.endpoints && v != e ==> r.value.endpoints[v] == w.endpoints[v])
  {
    if w.operator == [] then None
    else
      var ep := w.endpoints[e];
      var endpoints := if w.operator[0] then w.endpoints[e := ep.(activated := JBool(true))] else w.endpoints;
      Some(w.(operator := w.operator[1..], endpoints := endpoints))
  }
}
