/** The remote client of client.go (package ghost): two toggle calls and a
    listing call against a configured endpoint. The HTTP client performs one
    exchange per call and is a parameter; `http.DefaultClient` is whatever
    transport the package-level functions are given. */
module Client {
  import opened Wrappers
  import opened Http
  import opened MonitorRegistry

  /** A client configured with an endpoint and an HTTP transport. */
  datatype Ghost = Ghost(url: string, http: Transport)

  /** The form a toggle request carries: exactly the two fields `action` and
      `name`, each with one value. */
  function ActionForm(a: Action, name: string): (form: Values)
    ensures form.Keys == {"action", "name"}
    ensures form["action"] == [ActionString(a)] && form["name"] == [name]
  {
    SetValue(SetValue(map[], "action", ActionString(a)), "name", name)
  }

  /** `ghost.action`: posts the form for `a` and `name` to the endpoint and
      succeeds only on a 200 reply. */
  function PostAction(g: Ghost, a: Action, name: string): (r: Outcome<ClientError>)
    ensures ToggleReported(g.http(PostForm(g.url, ActionForm(a, name))), ActionString(a), r)
  {
    var reply := g.http(PostForm(g.url, ActionForm(a, name)));
    match reply
    case TransportError(cause) => Fail(TransportFailed(ActionString(a), cause))
    case Reply(status, _) =>
      if status != StatusOK then Fail(UnexpectedStatus(status)) else Pass
  }

  /** `ghost.EnableMonitor`: asks the endpoint to enable `name`. */
  function EnableMonitor(g: Ghost, name: string): (r: Outcome<ClientError>)
    ensures ToggleReported(g.http(PostForm(g.url, map["action" := ["enable"], "name" := [name]])), "enable", r)
  {
    PostAction(g, Enable, name)
  }

  /** `ghost.DisableMonitor`: asks the endpoint to disable `name`. */
  function DisableMonitor(g: Ghost, name: string): (r: Outcome<ClientError>)
    ensures ToggleReported(g.http(PostForm(g.url, map["action" := ["disable"], "name" := [name]])), "disable", r)
  {
    PostAction(g, Disable, name)
  }

  /** `ghost.Monitors`: fetches the listing; the body is decoded only after a
      200 reply. The source's `MonitorState` values are read as booleans. */
  function Monitors(g: Ghost): (r: Result<map<string, bool>, ClientError>)
    ensures ListingReported(g.http(Get(g.url)), r)
  {
    var reply := g.http(Get(g.url));
    match reply
    case TransportError(cause) => Failure(TransportFailed("monitors", cause))
    case Reply(status, decoded) =>
      if status != StatusOK then Failure(UnexpectedStatus(status))
      else
        match decoded
        case None => Failure(DecodeFailed)
        case Some(listing) => Success(listing)
  }

  /** Package-level `EnableMonitor(url, name)`, run with the default transport. */
  function EnableMonitorAt(defaultClient: Transport, url: string, name: string): (r: Outcome<ClientError>)
    ensures ToggleReported(defaultClient(PostForm(url, map["action" := ["enable"], "name" := [name]])), "enable", r)
  {
    EnableMonitor(Ghost(url, defaultClient), name)
  }

  /** Package-level `DisableMonitor(url, name)`, run with the default transport. */
  function DisableMonitorAt(defaultClient: Transport, url: string, name: string): (r: Outcome<ClientError>)
    ensures ToggleReported(defaultClient(PostForm(url, map["action" := ["disable"], "name" := [name]])), "disable", r)
  {
    DisableMonitor(Ghost(url, defaultClient), name)
  }

  /** Package-level `Monitors(url)`, run with the default transport. */
  function MonitorsAt(defaultClient: Transport, url: string): (r: Result<map<string, bool>, ClientError>)
    ensures ListingReported(defaultClient(Get(url)), r)
  {
    Monitors(Ghost(url, defaultClient))
  }
}
