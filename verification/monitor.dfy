/** Monitors, actions and the process-wide registry of monitor.go.

    A monitor is seen through its observable state: its name and what its
    `Enabled()` reports. The registry maps each registered name to that state.
    The interface only asks that `Enable` make `Enabled()` report true and
    `Disable` make it report false; the model assumes every monitor honours
    that request (see `Apply`). */
module MonitorRegistry {
  import opened Wrappers

  /** A monitor as the registry observes it. */
  datatype Monitor = Monitor(name: string, enabled: bool)

  /** The two valid toggle instructions. */
  datatype Action = Enable | Disable

  /** The wire spelling of an action. */
  function ActionString(a: Action): string
  {
    match a
    case Enable => "enable"
    case Disable => "disable"
  }

  /** Reads an action off the wire; every string other than the two spellings
      (the empty string included) is invalid. */
  function ParseAction(s: string): (r: Option<Action>)
    ensures r.Some? <==> s == "enable" || s == "disable"
    ensures r.Some? ==> ActionString(r.value) == s
  {
    if s == "enable" then Some(Enable)
    else if s == "disable" then Some(Disable)
    else None
  }

  /** Printing an action and reading it back gives the action again, and the
      two actions have different spellings. */
  lemma ActionRoundTrip(a: Action, b: Action)
    ensures ParseAction(ActionString(a)) == Some(a)
    ensures ActionString(a) == ActionString(b) ==> a == b
  {
  }

  /** The state an action leaves a monitor in, under the interface's contract:
      `Enable` then `Enabled()` is true, `Disable` then it is false. */
  function Apply(m: Monitor, a: Action): (r: Monitor)
    ensures r.name == m.name
    ensures a == Enable ==> r.enabled
    ensures a == Disable ==> !r.enabled
  {
    m.(enabled := a == Enable)
  }

  /** Registered names and each monitor's observable state. Before the first
      registration the source's map is nil, which reads like the empty map. */
  type Registry = map<string, bool>

  const EmptyRegistry: Registry := map[]

  /** `RegisterMonitor`: inserts `m` under its name; a later registration under
      the same name replaces the earlier one. */
  function Register(reg: Registry, m: Monitor): (r: Registry)
    ensures m.name in r && r[m.name] == m.enabled
    ensures r.Keys == reg.Keys + {m.name}
    ensures forall k :: k in reg && k != m.name ==> r[k] == reg[k]
  {
    reg[m.name := m.enabled]
  }

  /** Registering twice under one name leaves a single entry holding the second
      monitor, exactly as if only the second had been registered. */
  lemma RegisterLastWins(reg: Registry, first: Monitor, second: Monitor)
    requires first.name == second.name
    ensures Register(Register(reg, first), second) == Register(reg, second)
  {
  }

  /** Registrations under different names do not interfere, so their order
      does not matter. */
  lemma RegisterCommutes(reg: Registry, m1: Monitor, m2: Monitor)
    requires m1.name != m2.name
    ensures Register(Register(reg, m1), m2) == Register(Register(reg, m2), m1)
  {
  }

  /** The names of a sequence of monitors. */
  function Names(ms: seq<Monitor>): set<string>
  {
    set m | m in ms :: m.name
  }

  /** `ms[i]` is the last monitor in `ms` carrying its name. */
  ghost predicate LastWithName(ms: seq<Monitor>, i: int)
    requires 0 <= i < |ms|
  {
    forall j :: i < j < |ms| ==> ms[j].name != ms[i].name
  }

  /** The names of a non-empty sequence: its head's and its tail's. */
  lemma NamesOfCons(ms: seq<Monitor>)
    requires |ms| > 0
    ensures Names(ms) == {ms[0].name} + Names(ms[1..])
  {
    assert forall m :: m in ms <==> m == ms[0] || m in ms[1..];
  }

  /** Being last with one's name survives dropping the head, and a head that
      is last with its name does not occur in the tail. */
  lemma LastWithNameOfCons(ms: seq<Monitor>)
    requires |ms| > 0
    ensures forall i :: 1 <= i < |ms| && LastWithName(ms, i) ==> LastWithName(ms[1..], i - 1)
    ensures LastWithName(ms, 0) ==> ms[0].name !in Names(ms[1..])
  {
    forall i | 1 <= i < |ms| && LastWithName(ms, i) ensures LastWithName(ms[1..], i - 1) {
      forall j | i - 1 < j < |ms[1..]| ensures ms[1..][j].name != ms[1..][i - 1].name {
        assert ms[1..][j] == ms[j + 1];
      }
    }
  }

  /** Registers each monitor of `ms` in order, as an application does at
      start-up. Every name ends up registered, each holding the state of the
      last monitor registered under it, and every other entry is untouched. */
  function RegisterAll(reg: Registry, ms: seq<Monitor>): (r: Registry)
    ensures r.Keys == reg.Keys + Names(ms)
    ensures forall k :: k in reg && k !in Names(ms) ==> r[k] == reg[k]
    ensures forall i :: 0 <= i < |ms| && LastWithName(ms, i) ==> r[ms[i].name] == ms[i].enabled
    decreases |ms|
  {
    if |ms| == 0 then reg
    else
      var r := RegisterAll(Register(reg, ms[0]), ms[1..]);
      NamesOfCons(ms);
      LastWithNameOfCons(ms);
      assert forall i :: 1 <= i < |ms| ==> ms[i] == ms[1..][i - 1];
      r
  }

  /** Monitors with pairwise distinct names. */
  predicate DistinctNames(ms: seq<Monitor>)
  {
    forall i, j :: 0 <= i < j < |ms| ==> ms[i].name != ms[j].name
  }

  /** With distinct names, each monitor of `ms` is the last carrying its name,
      so the registry ends up holding exactly its state. */
  lemma {:induction false} RegisterAllDistinct(reg: Registry, ms: seq<Monitor>, m: Monitor)
    requires DistinctNames(ms)
    requires m in ms
    ensures m.name in RegisterAll(reg, ms) && RegisterAll(reg, ms)[m.name] == m.enabled
  {
    var i :| 0 <= i < |ms| && ms[i] == m;
    assert LastWithName(ms, i);
  }

  /** Two orderings of one multiset of monitors name the same monitors. */
  lemma {:induction false} SameMonitors(ms: seq<Monitor>, ns: seq<Monitor>)
    requires multiset(ms) == multiset(ns)
    ensures forall m :: m in ms <==> m in ns
    ensures Names(ms) == Names(ns)
  {
    forall m ensures m in ms <==> m in ns {
      assert m in ms <==> m in multiset(ms);
      assert m in ns <==> m in multiset(ns);
    }
  }

  /** Two distinctly named sequences of the same monitors agree on the state
      registered under any one name. */
  lemma {:induction false} RegisterAllSameEntry(reg: Registry, ms: seq<Monitor>, ns: seq<Monitor>, k: string)
    requires DistinctNames(ms) && DistinctNames(ns)
    requires forall m :: m in ms <==> m in ns
    requires k in RegisterAll(reg, ms) && k in RegisterAll(reg, ns)
    ensures RegisterAll(reg, ms)[k] == RegisterAll(reg, ns)[k]
  {
    if k in Names(ms) {
      var m :| m in ms && m.name == k;
      RegisterAllDistinct(reg, ms, m);
      RegisterAllDistinct(reg, ns, m);
    } else {
      assert k !in Names(ns);
    }
  }

  /** Registries with the same names and the same state under each are equal. */
  lemma SameEntriesSameRegistry(a: Registry, b: Registry)
    requires a.Keys == b.Keys
    requires forall k :: k in a ==> a[k] == b[k]
    ensures a == b
  {
  }

  /** Two distinctly named sequences of the same monitors register the same
      registry. */
  lemma {:induction false} RegisterAllSameMonitors(reg: Registry, ms: seq<Monitor>, ns: seq<Monitor>)
    requires DistinctNames(ms) && DistinctNames(ns)
    requires forall m :: m in ms <==> m in ns
    requires Names(ms) == Names(ns)
    ensures RegisterAll(reg, ms) == RegisterAll(reg, ns)
  {
    var a, b := RegisterAll(reg, ms), RegisterAll(reg, ns);
    assert a.Keys == b.Keys;
    forall k | k in a ensures a[k] == b[k] {
      RegisterAllSameEntry(reg, ms, ns, k);
    }
    SameEntriesSameRegistry(a, b);
  }

  /** Registering monitors with distinct names, in whatever order the
      registrations happen to run, leaves the same registry: no entry is lost
      and none depends on the order. */
  lemma {:induction false} RegisterAllOrderFree(reg: Registry, ms: seq<Monitor>, ns: seq<Monitor>)
    requires DistinctNames(ms) && DistinctNames(ns)
    requires multiset(ms) == multiset(ns)
    ensures RegisterAll(reg, ms) == RegisterAll(reg, ns)
    ensures forall m :: m in ms ==> m.name in RegisterAll(reg, ns) && RegisterAll(reg, ns)[m.name] == m.enabled
  {
    SameMonitors(ms, ns);
    RegisterAllSameMonitors(reg, ms, ns);
    forall m | m in ms ensures m.name in RegisterAll(reg, ns) && RegisterAll(reg, ns)[m.name] == m.enabled {
      RegisterAllDistinct(reg, ns, m);
    }
  }
}
