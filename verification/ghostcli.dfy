/** The remote client of ghostcli/client.go: the same three calls as the
    package ghost client, written out a second time, with the listing typed
    as a name-to-boolean map. */
module CliClient {
  import opened Wrappers
  import opened Http
  import opened MonitorRegistry
  import Client

  /** A client configured with an endpoint and an HTTP transport. */
  datatype Ghost = Ghost(url: string, http: Transport)

  /** `Ghost.action`: sets `action` and `name` in a fresh form, posts it, and
      succeeds only on a 200 reply. */
  function PostAction(g: Ghost, a: Action, name: string): (r: Outcome<ClientError>)
    ensures ToggleReported(g.http(PostForm(g.url, map["action" := [ActionString(a)], "name" := [name]])), ActionString(a), r)
  {
    var vals := SetValue(SetValue(map[], "action", ActionString(a)), "name", name);
    var reply := g.http(PostForm(g.url, vals));
    if reply.TransportError? then Fail(TransportFailed(ActionString(a), reply.cause))
    else if reply.status != StatusOK then Fail(UnexpectedStatus(reply.status))
    else Pass
  }

  /** `Ghost.EnableMonitor`: sends the `enable` action for `name`. */
  function EnableMonitor(g: Ghost, name: string): (r: Outcome<ClientError>)
    ensures ToggleReported(g.http(PostForm(g.url, map["action" := ["enable"], "name" := [name]])), "enable", r)
  {
    PostAction(g, Enable, name)
  }

  /** `Ghost.DisableMonitor`: sends the `disable` action for `name`. */
  function DisableMonitor(g: Ghost, name: string): (r: Outcome<ClientError>)
    ensures ToggleReported(g.http(PostForm(g.url, map["action" := ["disable"], "name" := [name]])), "disable", r)
  {
    PostAction(g, Disable, name)
  }

  /** `Ghost.Monitors`: fetches and decodes the listing after a 200 reply. */
  function Monitors(g: Ghost): (r: Result<map<string, bool>, ClientError>)
    ensures ListingReported(g.http(Get(g.url)), r)
  {
    var reply := g.http(Get(g.url));
    if reply.TransportError? then Failure(TransportFailed("monitors", reply.cause))
    else if reply.status != StatusOK then Failure(UnexpectedStatus(reply.status))
    else if reply.decoded.None? then Failure(DecodeFailed)
    else Success(reply.decoded.value)
  }

  /** Package-level `EnableMonitor(url, name)`, run with the default transport. */
  function EnableMonitorAt(defaultClient: Transport, url: string, name: string): (r: Outcome<ClientError>)
    ensures ToggleReported(defaultClient(PostForm(url, map["action" := ["enable"], "name" := [name]])), "enable", r)
  {
    EnableMonitor(Ghost(url, defaultClient), name)
  }

  /** Package-level `DisableMonitor(url, name)`, run with the default transport. */
  function DisableMonitorAt(defaultClient: Transport, url: string, name: string): (r: Outcome<ClientError>)
    ensures ToggleReported(defaultClient(PostForm(url, map["action" := ["disable"], "name" := [name]])), "disable", r)
  {
    DisableMonitor(Ghost(url, defaultClient), name)
  }

  /** Package-level `Monitors(url)`, run with the default transport. */
  function MonitorsAt(defaultClient: Transport, url: string): (r: Result<map<string, bool>, ClientError>)
    ensures ListingReported(defaultClient(Get(url)), r)
  {
    Monitors(Ghost(url, defaultClient))
  }

  /** The two clients are interchangeable: configured with the same endpoint
      and transport, every call returns the same result in both. */
  lemma AgreesWithGhostClient(http: Transport, url: string, name: string)
    ensures EnableMonitor(Ghost(url, http), name) == Client.EnableMonitor(Client.Ghost(url, http), name)
    ensures DisableMonitor(Ghost(url, http), name) == Client.DisableMonitor(Client.Ghost(url, http), name)
    ensures Monitors(Ghost(url, http)) == Client.Monitors(Client.Ghost(url, http))
  {
  }
}
