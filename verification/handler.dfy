/** The HTTP handler of monitor.go: one endpoint that lists the registry on
    GET, toggles one monitor on POST, and refuses every other method.

    A request is seen after the transport has read it: its method, and the
    outcome of parsing its form (None when `ParseForm` fails). Whether the JSON
    encoding of the listing succeeds depends on how each monitor serialises
    itself, which is application code; the handler therefore takes it as a
    predicate `encodable` over the registry. */
module Handler {
  import opened Wrappers
  import opened Http
  import opened MonitorRegistry

  datatype Request = Request(verb: string, form: Option<Values>)

  /** A status and, for a listing, the name-to-state map written as the body.
      Before the first registration the source writes JSON `null`, which both
      clients decode to an empty map; the model writes the empty map. */
  datatype Response = Response(status: int, body: Option<map<string, bool>>)

  /** A response together with the registry as the request left it. */
  datatype Served = Served(response: Response, registry: Registry)

  /** The monitor a toggle request names; a missing field reads as "". */
  function TargetName(form: Values): string
  {
    FormValue(form, "name")
  }

  /** The action a toggle request asks for, if it is a valid one. */
  function RequestedAction(form: Values): Option<Action>
  {
    ParseAction(FormValue(form, "action"))
  }

  /** `listMonitors`: a snapshot of every registered name and its current
      state, or 500 when the encoding fails. */
  function ListMonitors(reg: Registry, encodable: Registry -> bool): (resp: Response)
    ensures resp.status == StatusOK <==> encodable(reg)
    ensures resp.status == StatusOK ==>
      && resp.body.Some?
      && resp.body.value.Keys == reg.Keys
      && forall k :: k in reg ==> resp.body.value[k] == reg[k]
    ensures resp.status != StatusOK ==> resp.status == StatusInternalServerError && resp.body.None?
  {
    if encodable(reg) then Response(StatusOK, Some(reg))
    else Response(StatusInternalServerError, None)
  }

  /** `switchMonitor`: parse the form, then look the name up, then check the
      action, in that order; only a registered name with a valid action
      reaches the monitor, and then only that monitor changes. */
  function SwitchMonitor(reg: Registry, form: Option<Values>): (s: Served)
    ensures s.registry.Keys == reg.Keys
    ensures s.response.body.None?
    ensures form.None? ==> s.response.status == StatusBadRequest && s.registry == reg
    ensures form.Some? && TargetName(form.value) !in reg ==>
      s.response.status == StatusNotFound && s.registry == reg
    ensures form.Some? && TargetName(form.value) in reg && RequestedAction(form.value).None? ==>
      s.response.status == StatusBadRequest && s.registry == reg
    ensures s.response.status == StatusOK <==>
      form.Some? && TargetName(form.value) in reg && RequestedAction(form.value).Some?
    ensures s.response.status == StatusOK ==>
      var name := TargetName(form.value);
      && s.registry[name] == (RequestedAction(form.value).value == Enable)
      && forall k :: k in reg && k != name ==> s.registry[k] == reg[k]
  {
    match form
    case None => Served(Response(StatusBadRequest, None), reg)
    case Some(values) =>
      var name := TargetName(values);
      if name !in reg then Served(Response(StatusNotFound, None), reg)
      else
        match RequestedAction(values)
        case Some(a) =>
          Served(Response(StatusOK, None), reg[name := Apply(Monitor(name, reg[name]), a).enabled])
        case None => Served(Response(StatusBadRequest, None), reg)
  }

  /** `MonitorHandler`: dispatch on the request method. */
  function Handle(reg: Registry, req: Request, encodable: Registry -> bool): (s: Served)
    ensures s.registry.Keys == reg.Keys
    ensures s.registry != reg ==> req.verb == MethodPost && s.response.status == StatusOK
    ensures req.verb != MethodGet && req.verb != MethodPost ==>
      s.response.status == StatusMethodNotAllowed && s.response.body.None? && s.registry == reg
    ensures req.verb == MethodGet ==>
      && s.registry == reg
      && (s.response.status == StatusOK <==> encodable(reg))
      && (s.response.status == StatusOK ==> s.response.body == Some(reg))
      && (s.response.status != StatusOK ==> s.response.status == StatusInternalServerError)
    ensures req.verb == MethodPost ==>
      s.response.status in {StatusOK, StatusBadRequest, StatusNotFound} && s.response.body.None?
    ensures req.verb == MethodPost ==> s == SwitchMonitor(reg, req.form)
  {
    if req.verb == MethodGet then Served(ListMonitors(reg, encodable), reg)
    else if req.verb == MethodPost then SwitchMonitor(reg, req.form)
    else Served(Response(StatusMethodNotAllowed, None), reg)
  }

  /** A POST naming an unregistered monitor is refused as not found whatever
      its action says: the name check comes before the action check. */
  lemma NameCheckPrecedesActionCheck(reg: Registry, form: Values, encodable: Registry -> bool)
    requires TargetName(form) !in reg
    requires RequestedAction(form).None?
    ensures Handle(reg, Request(MethodPost, Some(form)), encodable) == Served(Response(StatusNotFound, None), reg)
  {
  }

  /** Whether `req` is a toggle request naming `k`. */
  predicate Targets(req: Request, k: string)
  {
    req.verb == MethodPost && req.form.Some? && TargetName(req.form.value) == k
  }

  /** The statuses of a sequence of requests served one after another, and
      the registry they leave behind. */
  datatype Run = Run(statuses: seq<int>, registry: Registry)

  /** Serves `reqs` in order, each against the registry the previous one left:
      the sequential reading of concurrent requests. The set of registered
      names never changes. */
  function Serve(reg: Registry, reqs: seq<Request>, encodable: Registry -> bool): (r: Run)
    ensures |r.statuses| == |reqs|
    ensures r.registry.Keys == reg.Keys
    ensures |reqs| > 0 ==> r.statuses[0] == Handle(reg, reqs[0], encodable).response.status
    decreases |reqs|
  {
    if |reqs| == 0 then Run([], reg)
    else
      var s := Handle(reg, reqs[0], encodable);
      var rest := Serve(s.registry, reqs[1..], encodable);
      Run([s.response.status] + rest.statuses, rest.registry)
  }

  /** A monitor that no request of a run names keeps its state. */
  lemma {:induction false} ServeKeepsUnnamed(reg: Registry, reqs: seq<Request>, encodable: Registry -> bool, k: string)
    requires k in reg
    requires forall i :: 0 <= i < |reqs| ==> !Targets(reqs[i], k)
    ensures Serve(reg, reqs, encodable).registry[k] == reg[k]
    decreases |reqs|
  {
    if |reqs| > 0 {
      var s := Handle(reg, reqs[0], encodable);
      assert !Targets(reqs[0], k);
      assert s.registry[k] == reg[k];
      assert forall i :: 0 <= i < |reqs[1..]| ==> reqs[1..][i] == reqs[i + 1];
      ServeKeepsUnnamed(s.registry, reqs[1..], encodable, k);
    }
  }

  /** The two-state machine of one monitor, driven only by the valid toggle
      requests naming it: its state after `reqs`, starting from `state`. */
  function MachineState(state: bool, reqs: seq<Request>, k: string): bool
    decreases |reqs|
  {
    if |reqs| == 0 then state
    else
      var req := reqs[0];
      var next :=
        if Targets(req, k) && RequestedAction(req.form.value).Some?
        then RequestedAction(req.form.value).value == Enable
        else state;
      MachineState(next, reqs[1..], k)
  }

  /** Serving a run moves every registered monitor exactly as its own
      two-state machine says: the registry-wide handler and the per-monitor
      machine agree on every name after every run. */
  lemma {:induction false} ServeFollowsMachine(reg: Registry, reqs: seq<Request>, encodable: Registry -> bool, k: string)
    requires k in reg
    ensures Serve(reg, reqs, encodable).registry[k] == MachineState(reg[k], reqs, k)
    decreases |reqs|
  {
    if |reqs| > 0 {
      var s := Handle(reg, reqs[0], encodable);
      assert s.registry[k] == MachineState(reg[k], [reqs[0]], k);
      ServeFollowsMachine(s.registry, reqs[1..], encodable, k);
    }
  }
}
