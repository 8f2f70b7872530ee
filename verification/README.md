# NX-OS route-churn monitor — Dafny model

`route_monitor.py` runs on a Cisco NX-OS switch. On each run it reads the
IPv4 routing table of one VRF, flattens it to a list of route records
(prefix, next hop, protocol), and loads the list saved by the previous run.
It sends one syslog alert per route that disappeared and then one per route
that appeared. Finally it saves the new list. This project models that logic
as pure Dafny functions over immutable datatypes and proves its properties.

Modules, one per component of the script:

- `RawJson` (raw_json.dfy): the device reply as a decoded JSON value. `Get`, `GetString` and
  `GetPath` model Python subscripting. They fail with `KeyError(key)`, with `TypeError(key)` when
  the value is not a dict, and with `NotAString(key)` for a text field that holds something else.
- `Routes` (routes.dfy): the route record `Route(prefix, nexthop, proto)`. It stands for the
  one-key dict `{prefix: {"nexthop": …, "proto": …}}` the script builds. The module also holds the
  typed table: `Shape<T> = One(T) | Many(seq<T>)` at both nesting levels. `Flatten` is the
  reference normaliser.
- `Collector` (collector.dfy): `GetRoutes`, the body of `get_routes` after the device query.
  It reads keys in the same order as the script. For replies whose `ipprefix`, `ipnexthop` and
  `clientname` hold strings, it therefore fails on the same replies with the same error.
  `Decode` reads a reply into the typed table. `GetRoutesAgrees` proves that `GetRoutes`
  equals `Flatten` of `Decode` with one exception. When `ROW_prefix` is a single object, the
  script reads `TABLE_path` and `ROW_path` first and `ipprefix` only while building a record.
  So such an object with no `ipprefix` may succeed: with an empty `ROW_path` array it yields no
  routes. Or it may raise the path lookup's error: an empty object raises
  `KeyError('TABLE_path')`. The same object inside a one-element array raises
  `KeyError('ipprefix')` in both cases. `SingleObjectWithoutPrefix` and `EmptyObjectErrorsDiffer`
  exhibit this.
- `Differ` (differ.dfy): `compare_routes`. `Missing(xs, ys)` is one of its membership loops.
- `Notifier` (notifier.dfy): the alerts of `send_syslog`, each a severity plus a message.
- `Monitor` (monitor.dfy): `run` over an abstract store. The store maps file paths to saved
  route lists. `Load` returns `None` for a missing file, as `read_route_file` does on
  `FileNotFoundError`.
- `Wrappers` and `Seqs` are helpers: `Option`/`Result`, prefix and substring tests, subsequences.

Two facts about the code shape the model:

- The early return in `compare_routes` uses list equality `current == last`, which is
  order-sensitive. `ShortCircuitAgrees` proves that the membership loops give the same empty
  result in that case. A mere reordering also gives an empty diff (`ReorderingIsNoChange`).
- Malformed input raises `KeyError` or `TypeError`. `Collector.GetRoutes` returns those errors.

## Model

| member | source | states |
|---|---|---|
| Routes.FanOut | route_monitor.py:44-52 | A `ROW_path` array of N next hops yields exactly N records. Record i carries the prefix and the i-th hop's `ipnexthop` and `clientname`. |
| Routes.RowRoutes | route_monitor.py:41-61 | A prefix row yields one record per next hop, in next-hop order. A single-object `ROW_path` yields exactly one record. |
| Routes.Flatten | route_monitor.py:35-61 | The flat list has as many records as there are next hops in total across all prefixes. |
| Routes.FlattenAppend | route_monitor.py:37-61 | Flattening a concatenation of rows gives the concatenation of their flattenings. Hop counts add up the same way. |
| Routes.FlattenGrouped | route_monitor.py:37-61 | Row i's records form one contiguous block. The block starts right after all records of rows 0..i-1, so records are grouped by prefix in input order. |
| Routes.FlattenMembers | route_monitor.py:38-61 | A record is in the output if and only if it is the record of some next hop of some row. Nothing is filtered, because the `attached` filter is commented out. |
| Routes.NoPrefixDropped | route_monitor.py:38-40 | Every prefix with at least one next hop appears in the output. |
| Collector.HopRecords | route_monitor.py:44-52 | The next-hop loop succeeds if and only if every element yields a record. It then returns one record per element, in order. |
| Collector.GetRoutes | route_monitor.py:32-36 | A missing key or non-dict on the path to `ROW_prefix` aborts with that error. A `ROW_prefix` that is neither a list nor a dict yields no routes (no `else` branch, lines 36 and 62). |
| Collector.ListedRecordsAgree | route_monitor.py:36-61 | The loop over a `ROW_prefix` array returns the reference flattening of the decoded rows, or the decoding error. |
| Collector.SoleRowAgrees | route_monitor.py:62-82 | If `ipprefix` is a string, a single-object `ROW_prefix` gives the same records or the same error as the array branch gives for that row. |
| Collector.GetRoutesAgrees | route_monitor.py:32-84 | Outside the lazy-`ipprefix` case, `get_routes` equals the reference normaliser applied to the typed reading of the reply. The result agrees on records, order and error. |
| Collector.SingleObjectAsOneElementList | route_monitor.py:36-82 | A single-object `ROW_prefix` normalises like a one-element list of the same object, provided its `ipprefix` is a string. |
| Collector.SingleObjectWithoutPrefix | route_monitor.py:41-73 | A single object with no `ipprefix` and an empty `ROW_path` array yields no routes. The same object as the only list element raises `KeyError('ipprefix')`. |
| Collector.EmptyObjectErrorsDiffer | route_monitor.py:41-64 | An empty object as `ROW_prefix` raises `KeyError('TABLE_path')` from the path lookup at line 64. The same object as the only list element raises `KeyError('ipprefix')` from line 41. The two shapes fail with different errors. |
| Collector.DecodeEncode | route_monitor.py:32-61 | Reading a well-formed reply recovers the prefix table it encodes, including the One/Many shape of each container. |
| Collector.GetRoutesOfWellFormed | route_monitor.py:32-84 | For a well-formed reply, `get_routes` returns exactly the flat record list of its table. |
| Differ.Missing | route_monitor.py:127-135 | A route is in the result if and only if it is in the first list and absent from the second. The result is a subsequence of the first list. |
| Differ.MissingCounts | route_monitor.py:127-135 | Duplicates are kept. Each route absent from the second list occurs as often as in the first list; every other route does not occur. |
| Differ.MissingUnique | route_monitor.py:127-135 | Membership, multiplicity and order determine the loop's result completely. Any subsequence with those counts equals it. |
| Differ.CompareRoutes | route_monitor.py:113-138 | `changed` is always empty. `removed` holds exactly the routes in `last` that are not in `current`, and `added` the reverse. |
| Differ.ShortCircuitAgrees | route_monitor.py:122-135 | The early return for equal lists gives what the two loops would give. In every case the result is (`Missing(last, current)`, `Missing(current, last)`, `[]`). |
| Differ.CompareSymmetric | route_monitor.py:127-135 | `compare_routes(a, b).added` equals `compare_routes(b, a).removed`, and vice versa. |
| Differ.NoChangeIffSameMembers | route_monitor.py:123-135 | `added` and `removed` are both empty if and only if each list's routes all occur in the other. |
| Differ.ReorderingIsNoChange | route_monitor.py:123-135 | Two lists with the same routes in another order produce an empty diff. |
| Notifier.Render | route_monitor.py:147-157 | The body is the f-string of lines 150 and 156, character for character. The contract states only the opening words of each kind (`ROUTE REMOVED - ` or `ROUTE ADDED - `). `RenderEvent` and `RenderFields` add the kind and that all three fields occur. No lemma fixes the order or labels of the fields for every route; `ScenarioMessage` checks one full message. |
| Notifier.RenderEvent | route_monitor.py:148-157 | A message's opening words identify its kind: removal or addition. |
| Notifier.RenderFields | route_monitor.py:147-157 | Each message contains its route's prefix, next hop and protocol. |
| Notifier.AlertsFor | route_monitor.py:146-151 | One `LOG_ERR` alert per route, in list order. Alert i renders route i. |
| Notifier.SendSyslog | route_monitor.py:141-158 | Exactly `len(removed) + len(added)` alerts, all `LOG_ERR`. The removal alerts come first, in `removed` order, then the addition alerts in `added` order. |
| Notifier.SendSyslogEvents | route_monitor.py:146-157 | Alert i announces a removal if and only if i < `len(removed)`. Every other alert announces an addition. |
| Notifier.RemovalsBeforeAdditions | route_monitor.py:146-157 | Every "ROUTE REMOVED" alert is sent before every "ROUTE ADDED" alert. |
| Notifier.SendSyslogNamesRoutes | route_monitor.py:146-157 | Each alert names the prefix, next hop and protocol of the route it reports. |
| Monitor.Load | route_monitor.py:97-110 | `read_route_file`: the saved list of an existing file, and `None` exactly when the file does not exist (`FileNotFoundError`). |
| Monitor.Save | route_monitor.py:87-94 | After a save, loading the path returns the saved list. Every other file is unchanged. |
| Monitor.Run | route_monitor.py:161-174 | A collection error aborts the run with no alerts and leaves the store untouched. Otherwise the snapshot at `path` becomes the collected list and no other file changes. Alerts are sent only if the loaded snapshot is present and non-empty. They are then exactly the rendered diff of the snapshot against the collection, `len(removed) + len(added)` of them. |
| Monitor.RunAlertsIffChanged | route_monitor.py:164-173 | After a successful collection, alerts are sent if and only if a non-empty snapshot exists and some route is in exactly one of the two lists. |
| Monitor.FirstRunIsQuiet | route_monitor.py:164-173 | With no snapshot file (`None` from lines 106-110), or an empty one, the run sends no alerts and stores the collected list. |
| Monitor.ConsecutiveRuns | route_monitor.py:164-173 | Provided the first run collected at least one route, the second of two runs reports the diff between the first run's collection and its own. |
| Monitor.EmptyCollectionSilencesNext | route_monitor.py:164-173 | After a run that collected no routes, the next run sends nothing, because the stored empty list is falsy at line 167. |
| Monitor.UnchangedTableIsQuiet | route_monitor.py:164-173 | A table with the same routes as the previous run raises no alert. |
| Monitor.OneAddedRouteScenario | route_monitor.py:161-174 | Stored: one static route. Reported: that route plus a BGP route. Exactly one alert is sent, "ROUTE ADDED - PREFIX: 10.0.1.0/24, NEXT HOP: 10.0.0.2, PROTOCOL: bgp", and both routes are stored. |

## Left out

- The device query `clid("show ip route vrf …")` and its `json.loads` (line 31) are foreign calls. The decoded reply is the `reply` parameter.
- JSON numbers are integers only. Floating point is not modelled.
- Collector.GetRoutes: `ipprefix`, `ipnexthop` and `clientname` must hold strings. Any other value is reported as `NotAString` when the field is read. Python would carry numbers through into the record, and would raise `TypeError` for an unhashable `ipprefix` only while building the dict. NX-OS reports these fields as strings.
- File I/O and the JSON encoding in `write_route_file`/`read_route_file` (lines 87-110) are not modelled. The store is a map from path to route list, and the JSON round trip of a route list is taken to be the identity. Read errors other than a missing file are not modelled, and neither are write failures.
- The `syslog` transport (lines 148, 154) is not modelled. Only the sequence of (severity, message) pairs handed to it is.
- The `print` narration, the `LOCAL_FILE` and `VRF` constants and the `cisco.vrf` import are left out. The snapshot path is a parameter of `Run`.
- Scheduling and overlapping runs are left out. A run is one sequential evaluation.
