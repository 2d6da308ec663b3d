/** The client paired with the handler: a client call whose transport
    delivers the request to `Handle` on a given registry and brings its
    response back.

    Two pieces of plumbing stand between them and are taken as faithful: the
    URL form encoding (the handler parses back exactly the values the client
    set) and the JSON encoding (the client decodes exactly the object the
    handler wrote, and an empty body does not decode). */
module EndToEnd {
  import opened Wrappers
  import opened Http
  import opened MonitorRegistry
  import opened Handler
  import Client

  /** The request the handler sees for a client call. */
  function ServerRequest(call: Call): Request
  {
    match call
    case PostForm(_, form) => Request(MethodPost, Some(form))
    case Get(_) => Request(MethodGet, Some(map[]))
  }

  /** The reply the client sees for a handler response. */
  function ClientReply(resp: Response): Reply
  {
    Reply(resp.status, resp.body)
  }

  /** One exchange: the reply to a call and the registry it leaves behind. */
  datatype Exchanged = Exchanged(reply: Reply, registry: Registry)

  function Exchange(reg: Registry, encodable: Registry -> bool, call: Call): Exchanged
  {
    var s := Handle(reg, ServerRequest(call), encodable);
    Exchanged(ClientReply(s.response), s.registry)
  }

  /** A transport talking to a handler that serves `reg`. */
  function ServerTransport(reg: Registry, encodable: Registry -> bool): Transport
  {
    call => Exchange(reg, encodable, call).reply
  }

  /** A client toggle succeeds exactly when the name is registered, since the
      client only ever sends a valid action; it then sets that monitor's state
      to the action's and nothing else, and otherwise it fails with 404 and
      leaves the registry as it was. */
  lemma ToggleAgainstHandler(reg: Registry, encodable: Registry -> bool, url: string, a: Action, name: string)
    ensures var r := Client.PostAction(Client.Ghost(url, ServerTransport(reg, encodable)), a, name);
            var after := Exchange(reg, encodable, PostForm(url, Client.ActionForm(a, name))).registry;
            && (r.Pass? <==> name in reg)
            && (r.Pass? ==> after.Keys == reg.Keys && after[name] == (a == Enable)
                            && forall k :: k in reg && k != name ==> after[k] == reg[k])
            && (r.Fail? ==> r == Fail(UnexpectedStatus(StatusNotFound)) && after == reg)
  {
  }

  /** Enabling through the client: succeeds iff `name` is registered, and
      afterwards that monitor is enabled. */
  lemma EnableAgainstHandler(reg: Registry, encodable: Registry -> bool, url: string, name: string)
    ensures var r := Client.EnableMonitor(Client.Ghost(url, ServerTransport(reg, encodable)), name);
            var after := Exchange(reg, encodable, PostForm(url, Client.ActionForm(Enable, name))).registry;
            && (r.Pass? <==> name in reg)
            && (r.Pass? ==> after[name])
  {
    ToggleAgainstHandler(reg, encodable, url, Enable, name);
  }

  /** Disabling through the client: succeeds iff `name` is registered, and
      afterwards that monitor is disabled. */
  lemma DisableAgainstHandler(reg: Registry, encodable: Registry -> bool, url: string, name: string)
    ensures var r := Client.DisableMonitor(Client.Ghost(url, ServerTransport(reg, encodable)), name);
            var after := Exchange(reg, encodable, PostForm(url, Client.ActionForm(Disable, name))).registry;
            && (r.Pass? <==> name in reg)
            && (r.Pass? ==> !after[name])
  {
    ToggleAgainstHandler(reg, encodable, url, Disable, name);
  }

  /** Listing through the client returns exactly the registry when the
      handler can encode it, and a 500 error otherwise; it changes nothing. */
  lemma ListAgainstHandler(reg: Registry, encodable: Registry -> bool, url: string)
    ensures var r := Client.Monitors(Client.Ghost(url, ServerTransport(reg, encodable)));
            && (r.Success? <==> encodable(reg))
            && (r.Success? ==> r.value == reg)
            && (r.Failure? ==> r == Failure(UnexpectedStatus(StatusInternalServerError)))
    ensures Exchange(reg, encodable, Get(url)).registry == reg
  {
  }
}
