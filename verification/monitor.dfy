/**
  * The orchestrator: one run of the monitor, collect -> load the previous
  * snapshot -> diff and notify if there is one -> store the new snapshot.
  * The device query is the `reply` parameter; the snapshot file lives in an
  * abstract store of route lists keyed by file path.
  */
module Monitor {
  import opened Wrappers
  import opened RawJson
  import opened Routes
  import opened Collector
  import opened Differ
  import opened Notifier

  /** The files the monitor can see: path to the route list written there. */
  type Store = map<string, seq<Route>>

  /** `read_route_file`: the stored list, or nothing when the file does not exist. */
  function Load(store: Store, path: string): (snapshot: Option<seq<Route>>)
    ensures snapshot.None? <==> path !in store
    ensures snapshot.Some? ==> snapshot.value == store[path]
  {
    if path in store then Some(store[path]) else None
  }

  /** `write_route_file`: the file at `path` now holds `routes`; no other file changes. */
  function Save(store: Store, path: string, routes: seq<Route>): (s: Store)
    ensures Load(s, path) == Some(routes)
    ensures forall p :: p != path ==> Load(s, p) == Load(store, p)
  {
    store[path := routes]
  }

  /** The test `if previous_prefixes:` — a snapshot exists and is not empty. */
  predicate Truthy(snapshot: Option<seq<Route>>) {
    snapshot.Some? && |snapshot.value| > 0
  }

  /** How a run ends: normally, or aborted by an error raised while collecting. */
  datatype Exit = Completed | Aborted(error: Error)

  /** What a run leaves behind: its exit, the alerts it sent in order, and the store. */
  datatype RunResult = RunResult(exit: Exit, alerts: seq<Alert>, store: Store)

  /** `run()` against the device reply `reply` and the snapshot file `path`. */
  function Run(reply: Json, store: Store, path: string): (res: RunResult)
    ensures res.exit.Aborted? <==> GetRoutes(reply).Failure?
    ensures GetRoutes(reply).Failure? ==>
      res.exit == Aborted(GetRoutes(reply).error) && res.alerts == [] && res.store == store
    ensures GetRoutes(reply).Success? ==> Load(res.store, path) == Some(GetRoutes(reply).value)
    ensures forall p :: p != path ==> Load(res.store, p) == Load(store, p)
    ensures res.alerts != [] ==> Truthy(Load(store, path))
    ensures GetRoutes(reply).Success? && Truthy(Load(store, path)) ==>
      res.alerts == SendSyslog(CompareRoutes(Load(store, path).value, GetRoutes(reply).value))
    ensures GetRoutes(reply).Success? && Truthy(Load(store, path)) ==>
      var d := CompareRoutes(Load(store, path).value, GetRoutes(reply).value);
      |res.alerts| == |d.removed| + |d.added|
  {
    match GetRoutes(reply)
    case Failure(e) => RunResult(Aborted(e), [], store)
    case Success(current) =>
      var previous := Load(store, path);
      var alerts := if Truthy(previous) then SendSyslog(CompareRoutes(previous.value, current)) else [];
      RunResult(Completed, alerts, Save(store, path, current))
  }

  /**
    * After a successful collection, alerts are sent exactly when a non-empty
    * snapshot exists and some route is in one list but not the other.
    */
  lemma RunAlertsIffChanged(reply: Json, store: Store, path: string)
    requires GetRoutes(reply).Success?
    ensures Run(reply, store, path).alerts != [] <==>
      Truthy(Load(store, path)) &&
      exists r :: (r in Load(store, path).value) != (r in GetRoutes(reply).value)
  {
    var current := GetRoutes(reply).value;
    if Truthy(Load(store, path)) {
      var previous := Load(store, path).value;
      NoChangeIffSameMembers(previous, current);
      var d := CompareRoutes(previous, current);
      assert |Run(reply, store, path).alerts| == |d.removed| + |d.added|;
    }
  }

  /** The first run, or a run after an empty snapshot, sends nothing and stores what it collected. */
  lemma FirstRunIsQuiet(reply: Json, store: Store, path: string)
    requires GetRoutes(reply).Success?
    requires path !in store || store[path] == []
    ensures Run(reply, store, path).alerts == []
    ensures Load(Run(reply, store, path).store, path) == Some(GetRoutes(reply).value)
  {
  }

  /**
    * Two consecutive runs: the second one reports the difference between what
    * the first collected and what it collects itself.
    */
  lemma ConsecutiveRuns(reply1: Json, reply2: Json, store: Store, path: string)
    requires GetRoutes(reply1).Success? && |GetRoutes(reply1).value| > 0
    requires GetRoutes(reply2).Success?
    ensures Run(reply2, Run(reply1, store, path).store, path).alerts ==
      SendSyslog(CompareRoutes(GetRoutes(reply1).value, GetRoutes(reply2).value))
  {
  }

  /**
    * An empty collection is stored like any other, and since an empty list is
    * falsy, the next run sends nothing whatever it collects.
    */
  lemma EmptyCollectionSilencesNext(reply1: Json, reply2: Json, store: Store, path: string)
    requires GetRoutes(reply1) == Success([])
    ensures Run(reply2, Run(reply1, store, path).store, path).alerts == []
  {
  }

  /** A route table that has not changed since the last run raises no alert. */
  lemma UnchangedTableIsQuiet(reply1: Json, reply2: Json, store: Store, path: string)
    requires GetRoutes(reply1).Success? && GetRoutes(reply2).Success?
    requires forall r :: r in GetRoutes(reply1).value <==> r in GetRoutes(reply2).value
    ensures Run(reply2, Run(reply1, store, path).store, path).alerts == []
  {
    NoChangeIffSameMembers(GetRoutes(reply1).value, GetRoutes(reply2).value);
  }

  /** The table of the scenario below: two prefixes, one next hop each. */
  function ScenarioTable(): Shape<PrefixRow> {
    Many([PrefixRow("10.0.0.0/24", One(NextHop("10.0.0.1", "static"))),
          PrefixRow("10.0.1.0/24", One(NextHop("10.0.0.2", "bgp")))])
  }

  lemma ScenarioFlattened()
    ensures Flatten(Items(ScenarioTable())) ==
      [Route("10.0.0.0/24", "10.0.0.1", "static"), Route("10.0.1.0/24", "10.0.0.2", "bgp")]
  {
    var rows := Items(ScenarioTable());
    assert RowRoutes(rows[0]) == [Route("10.0.0.0/24", "10.0.0.1", "static")];
    assert RowRoutes(rows[1]) == [Route("10.0.1.0/24", "10.0.0.2", "bgp")];
    assert rows[1..] == [rows[1]];
    assert Flatten([rows[1]]) == RowRoutes(rows[1]) + Flatten([]);
  }

  lemma ScenarioCollected()
    ensures GetRoutes(EncodeReply(ScenarioTable())) ==
      Success([Route("10.0.0.0/24", "10.0.0.1", "static"), Route("10.0.1.0/24", "10.0.0.2", "bgp")])
  {
    GetRoutesOfWellFormed(ScenarioTable());
    ScenarioFlattened();
  }

  lemma ScenarioDiff()
    ensures CompareRoutes([Route("10.0.0.0/24", "10.0.0.1", "static")],
                          [Route("10.0.0.0/24", "10.0.0.1", "static"), Route("10.0.1.0/24", "10.0.0.2", "bgp")])
      == Diff([], [Route("10.0.1.0/24", "10.0.0.2", "bgp")], [])
  {
    var r1 := Route("10.0.0.0/24", "10.0.0.1", "static");
    var r2 := Route("10.0.1.0/24", "10.0.0.2", "bgp");
    assert [r1, r2][1..] == [r2];
  }

  lemma ScenarioMessage()
    ensures Render(RouteAdded, Route("10.0.1.0/24", "10.0.0.2", "bgp")) ==
      "ROUTE ADDED - PREFIX: 10.0.1.0/24, NEXT HOP: 10.0.0.2, PROTOCOL: bgp"
  {
    var a := "ROUTE ADDED - " + "PREFIX: ";
    assert a == "ROUTE ADDED - PREFIX: ";
    var b := a + "10.0.1.0/24";
    assert b == "ROUTE ADDED - PREFIX: 10.0.1.0/24";
    var c := b + ", NEXT HOP: ";
    assert c == "ROUTE ADDED - PREFIX: 10.0.1.0/24, NEXT HOP: ";
    var d := c + "10.0.0.2";
    assert d == "ROUTE ADDED - PREFIX: 10.0.1.0/24, NEXT HOP: 10.0.0.2";
    var e := d + ", PROTOCOL: ";
    assert e == "ROUTE ADDED - PREFIX: 10.0.1.0/24, NEXT HOP: 10.0.0.2, PROTOCOL: ";
    assert Render(RouteAdded, Route("10.0.1.0/24", "10.0.0.2", "bgp")) == e + "bgp";
  }

  /**
    * One static route stored, and the device now also reports a BGP route:
    * the run sends exactly one alert, the addition of the BGP route, and
    * stores both routes.
    */
  lemma OneAddedRouteScenario(store: Store, path: string)
    requires Load(store, path) == Some([Route("10.0.0.0/24", "10.0.0.1", "static")])
    ensures var res := Run(EncodeReply(ScenarioTable()), store, path);
      && res.alerts == [Alert(LogErr, "ROUTE ADDED - PREFIX: 10.0.1.0/24, NEXT HOP: 10.0.0.2, PROTOCOL: bgp")]
      && Load(res.store, path) ==
           Some([Route("10.0.0.0/24", "10.0.0.1", "static"), Route("10.0.1.0/24", "10.0.0.2", "bgp")])
  {
    ScenarioCollected();
    ScenarioDiff();
    ScenarioMessage();
    var d := Diff([], [Route("10.0.1.0/24", "10.0.0.2", "bgp")], []);
    assert SendSyslog(d) == [Alert(LogErr, Render(RouteAdded, d.added[0]))];
  }
}
