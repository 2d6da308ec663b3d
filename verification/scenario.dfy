/** The walk-through of doc.go: an application registers a disabled
    `runtime` monitor, the command-line tool lists it, enables it, and lists
    it again; refused requests leave it as it is. */
module Scenario {
  import opened Wrappers
  import opened Http
  import opened MonitorRegistry
  import opened Handler
  import opened EndToEnd
  import Client

  const Url: string := "http://localhost:8080/monitors"

  /** Every registry encodes. */
  function AlwaysEncodes(reg: Registry): bool
  {
    true
  }

  /** `targets`, `monitor runtime`, `targets`, through the package ghost client. */
  lemma DocWalkThrough()
    ensures var before := Register(EmptyRegistry, Monitor("runtime", false));
            var enable := Exchange(before, AlwaysEncodes, PostForm(Url, Client.ActionForm(Enable, "runtime")));
            && Client.MonitorsAt(ServerTransport(before, AlwaysEncodes), Url) == Success(map["runtime" := false])
            && Client.EnableMonitorAt(ServerTransport(before, AlwaysEncodes), Url, "runtime") == Pass
            && Client.MonitorsAt(ServerTransport(enable.registry, AlwaysEncodes), Url) == Success(map["runtime" := true])
  {
    var before := Register(EmptyRegistry, Monitor("runtime", false));
    ListAgainstHandler(before, AlwaysEncodes, Url);
    var after := Exchange(before, AlwaysEncodes, PostForm(Url, Client.ActionForm(Enable, "runtime"))).registry;
    ToggleAgainstHandler(before, AlwaysEncodes, Url, Enable, "runtime");
    assert after == map["runtime" := true];
    ListAgainstHandler(after, AlwaysEncodes, Url);
  }

  /** The same session served as one run of raw requests, extended with an
      enable of an unknown name and a bogus action: the statuses are
      200, 200, 200, 404, 400 and `runtime` ends up enabled. */
  lemma DocSessionRun()
    ensures var reg := Register(EmptyRegistry, Monitor("runtime", false));
            var list := Request(MethodGet, Some(map[]));
            var reqs := [
              list,
              Request(MethodPost, Some(map["action" := ["enable"], "name" := ["runtime"]])),
              list,
              Request(MethodPost, Some(map["action" := ["enable"], "name" := ["missing"]])),
              Request(MethodPost, Some(map["action" := ["bogus"], "name" := ["runtime"]]))
            ];
            Serve(reg, reqs, AlwaysEncodes) == Run([200, 200, 200, 404, 400], map["runtime" := true])
  {
    var reg := Register(EmptyRegistry, Monitor("runtime", false));
    var on := map["runtime" := true];
    var list := Request(MethodGet, Some(map[]));
    var enableRuntime := Request(MethodPost, Some(map["action" := ["enable"], "name" := ["runtime"]]));
    var enableMissing := Request(MethodPost, Some(map["action" := ["enable"], "name" := ["missing"]]));
    var bogus := Request(MethodPost, Some(map["action" := ["bogus"], "name" := ["runtime"]]));
    var reqs := [list, enableRuntime, list, enableMissing, bogus];
    assert RequestedAction(bogus.form.value).None?;
    assert Handle(reg, enableRuntime, AlwaysEncodes).registry == on;
    assert Serve(on, [bogus], AlwaysEncodes) == Run([400], on);
    assert Serve(on, [enableMissing, bogus], AlwaysEncodes) == Run([404, 400], on) by {
      assert [enableMissing, bogus][1..] == [bogus];
    }
    assert Serve(on, [list, enableMissing, bogus], AlwaysEncodes) == Run([200, 404, 400], on) by {
      assert [list, enableMissing, bogus][1..] == [enableMissing, bogus];
    }
    assert Serve(reg, [enableRuntime, list, enableMissing, bogus], AlwaysEncodes) == Run([200, 200, 404, 400], on) by {
      assert [enableRuntime, list, enableMissing, bogus][1..] == [list, enableMissing, bogus];
    }
    assert reqs[1..] == [enableRuntime, list, enableMissing, bogus];
  }
}
