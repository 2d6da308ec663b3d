# ghost: monitor switches over HTTP, modelled in Dafny

The Go package `ghost` lets a running process expose named on/off "monitor"
switches. The application registers monitors in a process-wide registry; an
HTTP handler lists them (GET) and enables or disables one (POST form with
`action` and `name`); two near-identical clients (package `ghost` and package
`ghostcli`) issue those requests and classify the replies.

This project models that core functionally:

- `MonitorRegistry` (monitor.dfy): the `Monitor` interface seen through its
  observable state, the `Action` values, and the registry as an immutable
  `map<string, bool>` from name to what the monitor's `Enabled()` reports.
  `Register` is `RegisterMonitor`; `RegisterAll` is a sequence of them.
- `Handler` (handler.dfy): `Handle(registry, request, encodable)` returns the
  response and the new registry. `ListMonitors` and `SwitchMonitor` are the
  two branches. `Serve` runs a sequence of requests one after another.
- `Client` (client.dfy) and `CliClient` (ghostcli.dfy): the two clients. The
  HTTP transport is a parameter (`Call -> Reply`), one exchange per call.
  Shared reply specifications (`ToggleReported`, `ListingReported`) and the
  error kinds live in `Http` (http.dfy).
- `EndToEnd` (endtoend.dfy): a client whose transport is the handler over a
  registry. `Scenario` (scenario.dfy): the walk-through of doc.go.

Assumptions made explicit:

- The `Monitor` interface only says `Enable` "should" enable and `Disable`
  "should" disable. The model assumes every monitor honours this
  (`MonitorRegistry.Apply`): after `Enable`, `Enabled()` is true.
- Each monitor's `Enabled()` depends only on that monitor's own `Enable`
  and `Disable`, and only the handler calls them. The source does not
  promise this: monitors built from closures can share one variable, and the
  application keeps its reference and can change the state itself. Every
  "no other monitor changes" result rests on this assumption:
  `Handler.SwitchMonitor`, `Handler.ServeKeepsUnnamed`,
  `Handler.ServeFollowsMachine` and `EndToEnd.ToggleAgainstHandler`.
- The listing's JSON values come from each monitor's own serialisation, which
  is application code. The model takes a listing value to be the monitor's
  `Enabled()` state. Whether the encoding succeeds is the predicate
  `encodable` over the registry.
- Between client and handler, URL form encoding and JSON encoding are taken
  as faithful. An empty body does not decode.

The model follows the code in these details, which a reader might not expect:

- Names are not required to be non-empty. A missing form field reads as `""`:
  the helper `Http.FormValue` models `Request.FormValue` (monitor.go lines 74
  and 82), which returns a field's first value or the empty string.
  So a POST without `name` targets a monitor registered under `""`, if any.
- The handler compares the method string exactly with `"GET"` and `"POST"`.
  `HEAD` and every other method get 405.
- The listing encodes the monitor objects themselves, not a name-to-boolean
  snapshot (see the assumption above).

## Model

| member | source | states |
|---|---|---|
| MonitorRegistry.ParseAction | monitor.go:23-29 | exactly `"enable"` and `"disable"` are valid actions; anything else, the empty string included, is rejected; a parsed action spells back to its input |
| MonitorRegistry.ActionRoundTrip | monitor.go:26-29 | parsing an action's wire value gives the action back; the two actions have distinct wire values |
| MonitorRegistry.Apply | monitor.go:15-20 | the assumed monitor contract: an action keeps the monitor's name; after `Enable`, `Enabled()` reports true; after `Disable`, it reports false |
| MonitorRegistry.Register | monitor.go:35-44 | after registering `m`, the registry maps `m`'s name to its state; the key set grows by exactly that name; every other entry is unchanged |
| MonitorRegistry.RegisterLastWins | monitor.go:43 | registering twice under one name leaves one entry, the same as registering only the second monitor |
| MonitorRegistry.RegisterCommutes | monitor.go:41-43 | registrations under different names give the same registry in either order |
| MonitorRegistry.RegisterAll | monitor.go:36-44 | registering a sequence adds exactly its names; each name holds the last monitor registered under it; untouched entries keep their value |
| MonitorRegistry.RegisterAllDistinct | monitor.go:36-44 | with distinct names, every registered monitor is present with its own state |
| MonitorRegistry.RegisterAllOrderFree | monitor.go:37-43 | monitors with distinct names give the same registry whatever order they are registered in, and none is lost |
| Handler.ListMonitors | monitor.go:60-67 | status 200 iff the encoding succeeds; the body then has exactly the registered names with their current states; otherwise status 500 with no body |
| Handler.SwitchMonitor | monitor.go:69-93 | form parse failure gives 400; then an unregistered name gives 404; then an invalid action gives 400. Each refusal leaves the registry unchanged. 200 happens iff all three checks pass; it sets that monitor to the action's state and changes no other entry; keys never change |
| Handler.Handle | monitor.go:47-58 | GET lists without changing anything; POST answers 200, 400 or 404; any other method gives 405 with nothing changed; keys never change; only a successful POST changes the registry; a POST is answered exactly as `SwitchMonitor` answers its form |
| Handler.NameCheckPrecedesActionCheck | monitor.go:74-91 | an unregistered name with an invalid action gives 404, not 400, and no change |
| Handler.Serve | monitor.go:47-93 | a run of requests gives one status per request, the first being the handler's answer to the first request, and never adds or removes a registered name |
| Handler.ServeKeepsUnnamed | monitor.go:74-88 | across a run, a monitor that no POST names keeps its state |
| Handler.ServeFollowsMachine | monitor.go:69-93 | across any run of requests, each registered monitor ends in the state its own two-state machine reaches: the action of the last valid toggle naming it, or its initial state if there is none |
| Http.SetValue | client.go:68-69 | `url.Values.Set`: afterwards the key holds exactly the one value set, replacing any earlier values; the key set grows by at most that key; every other key keeps its values and reads the same |
| Client.ActionForm | client.go:67-69 | a toggle form holds exactly the fields `action` and `name`, each with one value: the action's wire value and the name |
| Client.PostAction | client.go:66-80 | posts the form for the action and name to the configured endpoint. Success iff the reply has status 200. A transport failure is returned with the action named and no status check. Any other status is an error carrying the code |
| Client.EnableMonitor | client.go:40-42 | posts `action=enable` and the name; success iff the reply is 200; errors as for `PostAction` |
| Client.DisableMonitor | client.go:44-46 | posts `action=disable` and the name; success iff the reply is 200; errors as for `PostAction` |
| Client.Monitors | client.go:48-64 | GETs the endpoint. A transport failure is an error. Any non-200 status is an error with its code, whatever the body. A 200 with an undecodable body is a decode error. Otherwise the result is exactly the decoded map |
| Client.EnableMonitorAt | client.go:12-17 | the package-level enable sends `action=enable` with the name to the given URL through the default transport, and reports the reply as the method does |
| Client.DisableMonitorAt | client.go:20-25 | the package-level disable sends `action=disable` with the name to the given URL through the default transport, and reports the reply as the method does |
| Client.MonitorsAt | client.go:28-33 | the package-level listing GETs the given URL through the default transport and reports the reply as the method does |
| CliClient.PostAction | ghostcli/client.go:64-78 | posts `action` and `name` to the configured endpoint; success iff status 200; a transport failure is returned with the action named; any other status is an error carrying the code |
| CliClient.EnableMonitor | ghostcli/client.go:38-40 | sends the enable action with the given name; success iff the reply is 200 |
| CliClient.DisableMonitor | ghostcli/client.go:42-44 | sends the disable action with the given name; success iff the reply is 200 |
| CliClient.Monitors | ghostcli/client.go:46-62 | transport failure or a non-200 status is an error, and the body is not looked at; an undecodable body is a decode error; otherwise the result is exactly the decoded name-to-boolean map |
| CliClient.EnableMonitorAt | ghostcli/client.go:12-17 | the package-level enable acts as a client configured with the URL and the default transport |
| CliClient.DisableMonitorAt | ghostcli/client.go:19-24 | the package-level disable acts as a client configured with the URL and the default transport |
| CliClient.MonitorsAt | ghostcli/client.go:26-31 | the package-level listing acts as a client configured with the URL and the default transport |
| CliClient.AgreesWithGhostClient | ghostcli/client.go:38-62 | given the same URL and transport, the ghostcli client and the package ghost client return the same result for every call |
| EndToEnd.ToggleAgainstHandler | client.go:66-80 | a client toggle against the handler succeeds iff the name is registered. On success, that monitor takes the action's state and nothing else changes. On failure, the error is 404 and the registry is unchanged |
| EndToEnd.EnableAgainstHandler | client.go:40-42 | a client enable against the handler succeeds iff the name is registered, and then that monitor is enabled |
| EndToEnd.DisableAgainstHandler | client.go:44-46 | a client disable against the handler succeeds iff the name is registered, and then that monitor is disabled |
| EndToEnd.ListAgainstHandler | client.go:48-64 | a client listing against the handler returns exactly the registry when it encodes, and a 500 error otherwise; nothing changes |
| Scenario.DocWalkThrough | doc.go:37-44 | a disabled `runtime` lists as disabled; `monitor runtime` succeeds; it then lists as enabled |
| Scenario.DocSessionRun | monitor.go:69-93 | the doc.go session extended with the handler's refusals (the 404 of lines 78-81 and the 400 of lines 89-91): list, enable `runtime`, list, enable `missing`, bogus action gives statuses 200, 200, 200, 404, 400, and `runtime` ends enabled |

## Left out

- Locking (`sync.Mutex`) and the lazy `sync.Once` set-up: every map operation is one atomic step, and requests are served one after another. Races between concurrent toggles of one name are not modelled.
- Before the first registration, the source's map is nil. Lookups read it like the empty map. The listing body is then JSON `null`, not `{}`, and both clients decode `null` to an empty map. The model starts from `map[]` and writes the empty map.
- `net/http`, URL form encoding and `encoding/json`: requests and replies are datatypes, and decoding is an `Option`. Which inputs make `ParseForm` fail is not modelled: a failed parse is `None`. Merging of query-string values into the form is not modelled either.
- Handler.ListMonitors: a failed write after part of the body is sent still counts as status 500, although Go cannot change the status at that point.
- Handler.ListMonitors: only the key set comes from the code. Each value being the monitor's `Enabled()` is an assumption, because `MonitorFuncs` and monitor serialisation are not part of this model.
- Client.Monitors: `MonitorState` is read as a boolean, because its definition is not part of this model.
- Error messages: client errors keep their kind, the action or operation name, the transport cause and the status code. The wrapped message text is not modelled.
- cmd/ghost/main.go, the command-line front end (flag parsing, usage text, table printing, exit codes), is not part of this model. doc.go has no code; its example is used only as the `Scenario` walk-through.
