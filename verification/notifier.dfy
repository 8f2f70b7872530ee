/**
  * The notifier: the alerts `send_syslog` hands to the system log, one per
  * removed route and then one per added route. The log transport itself is
  * outside the model; an alert is the severity and text of one `syslog` call.
  */
module Notifier {
  import opened Wrappers
  import opened Seqs
  import opened Routes
  import opened Differ

  /** The syslog priority of every alert. */
  datatype Severity = LogErr

  datatype Alert = Alert(severity: Severity, message: string)

  /** What an alert reports. */
  datatype Event = RouteRemoved | RouteAdded

  /** The words that open each kind of message, up to the first field. */
  function Lead(e: Event): string {
    match e
    case RouteRemoved => "ROUTE REMOVED - "
    case RouteAdded => "ROUTE ADDED - "
  }

  /** The message text for one route: it opens with the words that name its kind. */
  function Render(e: Event, r: Route): (message: string)
    ensures IsPrefix(Lead(e), message)
  {
    var message := Lead(e) + "PREFIX: " + r.prefix + ", NEXT HOP: " + r.nexthop + ", PROTOCOL: " + r.proto;
    var fields := "PREFIX: " + r.prefix + ", NEXT HOP: " + r.nexthop + ", PROTOCOL: " + r.proto;
    assert message == Lead(e) + fields;
    PrefixOfConcat(Lead(e), fields);
    message
  }

  /** The kind of alert a message announces, read from its opening words. */
  function EventOf(message: string): Option<Event> {
    if IsPrefix(Lead(RouteRemoved), message) then Some(RouteRemoved)
    else if IsPrefix(Lead(RouteAdded), message) then Some(RouteAdded)
    else None
  }

  /** A rendered message announces its own kind. */
  lemma RenderEvent(e: Event, r: Route)
    ensures EventOf(Render(e, r)) == Some(e)
  {
    var tail := "PREFIX: " + r.prefix + ", NEXT HOP: " + r.nexthop + ", PROTOCOL: " + r.proto;
    assert Render(e, r) == Lead(e) + tail;
    PrefixOfConcat(Lead(e), tail);
    if e == RouteAdded {
      DifferAt(Lead(RouteRemoved), Lead(RouteAdded) + tail, 6);
    }
  }

  /** A rendered message names the prefix, next hop and protocol of its route. */
  lemma RenderFields(e: Event, r: Route)
    ensures Contains(Render(e, r), r.prefix)
    ensures Contains(Render(e, r), r.nexthop)
    ensures Contains(Render(e, r), r.proto)
  {
    var s0 := Lead(e) + "PREFIX: ";
    var s1 := s0 + r.prefix;
    var s2 := s1 + ", NEXT HOP: ";
    var s3 := s2 + r.nexthop;
    var s4 := s3 + ", PROTOCOL: ";
    assert Render(e, r) == s4 + r.proto;
    ContainsSelf(r.prefix);
    ContainsSelf(r.nexthop);
    ContainsSelf(r.proto);
    ContainsRight(s0, r.prefix, r.prefix);
    ContainsLeft(s1, ", NEXT HOP: ", r.prefix);
    ContainsLeft(s2, r.nexthop, r.prefix);
    ContainsRight(s2, r.nexthop, r.nexthop);
    ContainsLeft(s3, ", PROTOCOL: ", r.prefix);
    ContainsLeft(s3, ", PROTOCOL: ", r.nexthop);
    ContainsLeft(s4, r.proto, r.prefix);
    ContainsLeft(s4, r.proto, r.nexthop);
    ContainsRight(s4, r.proto, r.proto);
  }

  /** One alert of kind `e` per route, in list order. */
  function AlertsFor(e: Event, routes: seq<Route>): (alerts: seq<Alert>)
    ensures |alerts| == |routes|
    ensures forall i :: 0 <= i < |routes| ==> alerts[i] == Alert(LogErr, Render(e, routes[i]))
  {
    if routes == [] then [] else [Alert(LogErr, Render(e, routes[0]))] + AlertsFor(e, routes[1..])
  }

  /** `send_syslog(diff)`: the removal alerts, then the addition alerts. */
  function SendSyslog(d: Diff): (alerts: seq<Alert>)
    ensures |alerts| == |d.removed| + |d.added|
    // Every alert is logged at `LOG_ERR`; with one `Severity` this holds of
    // any alert, and is stated to record the priority the script uses.
    ensures forall i :: 0 <= i < |alerts| ==> alerts[i].severity == LogErr
    ensures forall i :: 0 <= i < |d.removed| ==> alerts[i].message == Render(RouteRemoved, d.removed[i])
    ensures forall j :: 0 <= j < |d.added| ==> alerts[|d.removed| + j].message == Render(RouteAdded, d.added[j])
  {
    AlertsFor(RouteRemoved, d.removed) + AlertsFor(RouteAdded, d.added)
  }

  /** The `i`-th alert announces a removal exactly when `i` is below the number of removed routes. */
  lemma {:induction false} SendSyslogEvents(d: Diff)
    ensures forall i :: 0 <= i < |SendSyslog(d)| ==>
      EventOf(SendSyslog(d)[i].message) == Some(if i < |d.removed| then RouteRemoved else RouteAdded)
  {
    var alerts := SendSyslog(d);
    forall i | 0 <= i < |alerts|
      ensures EventOf(alerts[i].message) == Some(if i < |d.removed| then RouteRemoved else RouteAdded)
    {
      if i < |d.removed| {
        RenderEvent(RouteRemoved, d.removed[i]);
      } else {
        var j := i - |d.removed|;
        assert alerts[|d.removed| + j].message == Render(RouteAdded, d.added[j]);
        RenderEvent(RouteAdded, d.added[j]);
      }
    }
  }

  /** Every removal alert is dispatched before every addition alert. */
  lemma RemovalsBeforeAdditions(d: Diff)
    ensures forall i, j ::
      (0 <= i < |SendSyslog(d)| && 0 <= j < |SendSyslog(d)| &&
       EventOf(SendSyslog(d)[i].message) == Some(RouteRemoved) &&
       EventOf(SendSyslog(d)[j].message) == Some(RouteAdded)) ==> i < j
  {
    SendSyslogEvents(d);
  }

  /** Each alert names the prefix, next hop and protocol of the route it reports. */
  lemma {:induction false} SendSyslogNamesRoutes(d: Diff)
    ensures forall i :: 0 <= i < |d.removed| ==>
      var m := SendSyslog(d)[i].message;
      Contains(m, d.removed[i].prefix) && Contains(m, d.removed[i].nexthop) && Contains(m, d.removed[i].proto)
    ensures forall i :: |d.removed| <= i < |SendSyslog(d)| ==>
      var m := SendSyslog(d)[i].message;
      var r := d.added[i - |d.removed|];
      Contains(m, r.prefix) && Contains(m, r.nexthop) && Contains(m, r.proto)
  {
    var alerts := SendSyslog(d);
    forall i | 0 <= i < |d.removed|
      ensures Contains(alerts[i].message, d.removed[i].prefix)
      ensures Contains(alerts[i].message, d.removed[i].nexthop)
      ensures Contains(alerts[i].message, d.removed[i].proto)
    {
      RenderFields(RouteRemoved, d.removed[i]);
    }
    forall i | |d.removed| <= i < |alerts|
      ensures Contains(alerts[i].message, d.added[i - |d.removed|].prefix)
      ensures Contains(alerts[i].message, d.added[i - |d.removed|].nexthop)
      ensures Contains(alerts[i].message, d.added[i - |d.removed|].proto)
    {
      var j := i - |d.removed|;
      assert alerts[|d.removed| + j].message == Render(RouteAdded, d.added[j]);
      RenderFields(RouteAdded, d.added[j]);
    }
  }
}
