/**
  * The collector: the normalisation `get_routes` performs on the device's
  * route table once it has been decoded from JSON.
  *
  * `GetRoutes` follows the script step by step, subscript by subscript, so
  * that, for replies whose `ipprefix`, `ipnexthop` and `clientname` hold
  * strings, it succeeds and fails on the same replies and with the same error.
  * `Decode` reads the same reply into the typed One/Many view of the `Routes`
  * module, whose `Flatten` is the reference normaliser; `GetRoutesAgrees`
  * proves the two agree.
  */
module Collector {
  import opened Wrappers
  import opened RawJson
  import opened Routes

  /** Keys from the root of the reply down to the `ROW_prefix` container. */
  const PrefixPath: seq<string> :=
    ["TABLE_vrf", "ROW_vrf", "TABLE_addrf", "ROW_addrf", "TABLE_prefix", "ROW_prefix"]

  /** Keys from a prefix row down to its `ROW_path` container. */
  const PathPath: seq<string> := ["TABLE_path", "ROW_path"]

  // ---------------------------------------------------------------------------
  // The script's normaliser

  /** Reads one next-hop object: `ipnexthop` first, then `clientname`. */
  function DecodeHop(hop: Json): Result<NextHop, Error> {
    var nexthop :- GetString(hop, "ipnexthop");
    var proto :- GetString(hop, "clientname");
    Success(NextHop(nexthop, proto))
  }

  /** The record built for one next-hop object of the prefix `prefix`. */
  function HopRecord(prefix: string, hop: Json): Result<Route, Error> {
    var h :- DecodeHop(hop);
    Success(Route(prefix, h.ipnexthop, h.clientname))
  }

  /** The loop over a `ROW_path` array: one record per element, or the first error. */
  function HopRecords(prefix: string, hops: seq<Json>): (r: Result<seq<Route>, Error>)
    ensures r.Success? <==> forall i :: 0 <= i < |hops| ==> HopRecord(prefix, hops[i]).Success?
    ensures r.Success? ==> |r.value| == |hops|
    ensures r.Success? ==> forall i :: 0 <= i < |hops| ==> r.value[i] == HopRecord(prefix, hops[i]).value
  {
    if hops == [] then Success([])
    else
      var first :- HopRecord(prefix, hops[0]);
      var rest :- HopRecords(prefix, hops[1..]);
      Success([first] + rest)
  }

  /**
    * One element of a `ROW_prefix` array: `ipprefix` is read first, then the
    * path container, which fans out if it is an array and yields one record
    * otherwise.
    */
  function ListedRowRecords(row: Json): Result<seq<Route>, Error> {
    var prefix :- GetString(row, "ipprefix");
    var paths :- GetPath(row, PathPath);
    if paths.JArr? then HopRecords(prefix, paths.elems)
    else
      var r :- HopRecord(prefix, paths);
      Success([r])
  }

  /** The loop over a `ROW_prefix` array, aborting at the first error. */
  function ListedRecords(rows: seq<Json>): Result<seq<Route>, Error> {
    if rows == [] then Success([])
    else
      var first :- ListedRowRecords(rows[0]);
      var rest :- ListedRecords(rows[1..]);
      Success(first + rest)
  }

  /**
    * The loop over a `ROW_path` array when `ROW_prefix` is a single object:
    * here `ipprefix` is read anew for every next hop, before its fields.
    */
  function SoleHopRecords(row: Json, hops: seq<Json>): Result<seq<Route>, Error> {
    if hops == [] then Success([])
    else
      var prefix :- GetString(row, "ipprefix");
      var first :- HopRecord(prefix, hops[0]);
      var rest :- SoleHopRecords(row, hops[1..]);
      Success([first] + rest)
  }

  /**
    * A `ROW_prefix` that is a single object: the path container is read
    * first, and `ipprefix` only when a record is built.
    */
  function SoleRowRecords(row: Json): Result<seq<Route>, Error> {
    var paths :- GetPath(row, PathPath);
    if paths.JArr? then SoleHopRecords(row, paths.elems)
    else
      var prefix :- GetString(row, "ipprefix");
      var r :- HopRecord(prefix, paths);
      Success([r])
  }

  /**
    * `get_routes` after the device query: walk to `ROW_prefix`, then treat it
    * as an array of rows, as a single row, or, being neither, as no routes.
    */
  function GetRoutes(reply: Json): (r: Result<seq<Route>, Error>)
    ensures GetPath(reply, PrefixPath).Failure? ==> r == Failure(GetPath(reply, PrefixPath).error)
    ensures (GetPath(reply, PrefixPath).Success? && !GetPath(reply, PrefixPath).value.JArr? &&
             !GetPath(reply, PrefixPath).value.JObj?) ==> r == Success([])
  {
    var prefixes :- GetPath(reply, PrefixPath);
    match prefixes
    case JArr(rows) => ListedRecords(rows)
    case JObj(_) => SoleRowRecords(prefixes)
    case _ => Success([])
  }

  // ---------------------------------------------------------------------------
  // The typed view of a reply

  function DecodeHops(hops: seq<Json>): Result<seq<NextHop>, Error> {
    if hops == [] then Success([])
    else
      var first :- DecodeHop(hops[0]);
      var rest :- DecodeHops(hops[1..]);
      Success([first] + rest)
  }

  /** A path container: an array of next hops, or any other value as the single one. */
  function DecodePaths(paths: Json): Result<Shape<NextHop>, Error> {
    if paths.JArr? then
      var hs :- DecodeHops(paths.elems);
      Success(Many(hs))
    else
      var h :- DecodeHop(paths);
      Success(One(h))
  }

  function DecodeRow(row: Json): Result<PrefixRow, Error> {
    var prefix :- GetString(row, "ipprefix");
    var paths :- GetPath(row, PathPath);
    var shape :- DecodePaths(paths);
    Success(PrefixRow(prefix, shape))
  }

  function DecodeRows(rows: seq<Json>): Result<seq<PrefixRow>, Error> {
    if rows == [] then Success([])
    else
      var first :- DecodeRow(rows[0]);
      var rest :- DecodeRows(rows[1..]);
      Success([first] + rest)
  }

  /**
    * The typed prefix table of a reply; a `ROW_prefix` that is neither an
    * array nor an object reads as an empty array.
    */
  function Decode(reply: Json): Result<Shape<PrefixRow>, Error> {
    var prefixes :- GetPath(reply, PrefixPath);
    match prefixes
    case JArr(rows) =>
      var ps :- DecodeRows(rows);
      Success(Many(ps))
    case JObj(_) =>
      var p :- DecodeRow(prefixes);
      Success(One(p))
    case _ => Success(Many([]))
  }

  /** The reference normaliser applied to a decoding outcome; errors pass through. */
  function Flattened(t: Result<Shape<PrefixRow>, Error>): Result<seq<Route>, Error> {
    match t
    case Success(shape) => Success(Flatten(Items(shape)))
    case Failure(e) => Failure(e)
  }

  /**
    * The one place where the script's two branches part ways: `ROW_prefix` is
    * a single object whose `ipprefix` is missing or not a string. The script
    * then reads `TABLE_path` and `ROW_path` before `ipprefix`, and `ipprefix`
    * only while building a record. So it may succeed (an empty `ROW_path`
    * array) or raise the error of the path lookup where the array form raises
    * `KeyError('ipprefix')`.
    */
  predicate LazyPrefixCase(reply: Json) {
    GetPath(reply, PrefixPath).Success? &&
    GetPath(reply, PrefixPath).value.JObj? &&
    GetString(GetPath(reply, PrefixPath).value, "ipprefix").Failure?
  }

  // ---------------------------------------------------------------------------
  // Agreement of the two readings

  lemma {:induction false} HopRecordsAgree(prefix: string, hops: seq<Json>)
    ensures HopRecords(prefix, hops) ==
      (match DecodeHops(hops)
       case Success(hs) => Success(FanOut(prefix, hs))
       case Failure(e) => Failure(e))
    decreases |hops|
  {
    if hops != [] {
      HopRecordsAgree(prefix, hops[1..]);
    }
  }

  lemma ListedRowAgrees(row: Json)
    ensures ListedRowRecords(row) ==
      (match DecodeRow(row)
       case Success(p) => Success(RowRoutes(p))
       case Failure(e) => Failure(e))
  {
    if GetString(row, "ipprefix").Success? && GetPath(row, PathPath).Success? {
      var paths := GetPath(row, PathPath).value;
      var prefix := GetString(row, "ipprefix").value;
      if paths.JArr? {
        HopRecordsAgree(prefix, paths.elems);
        if DecodeHops(paths.elems).Success? {
          var hs := DecodeHops(paths.elems).value;
          assert DecodeRow(row) == Success(PrefixRow(prefix, Many(hs)));
          assert RowRoutes(PrefixRow(prefix, Many(hs))) == FanOut(prefix, hs);
        }
      } else if DecodeHop(paths).Success? {
        var h := DecodeHop(paths).value;
        assert DecodeRow(row) == Success(PrefixRow(prefix, One(h)));
        assert RowRoutes(PrefixRow(prefix, One(h))) == [Route(prefix, h.ipnexthop, h.clientname)];
      }
    }
  }

  lemma {:induction false} ListedRecordsAgree(rows: seq<Json>)
    ensures ListedRecords(rows) ==
      (match DecodeRows(rows)
       case Success(ps) => Success(Flatten(ps))
       case Failure(e) => Failure(e))
    decreases |rows|
  {
    if rows != [] {
      ListedRowAgrees(rows[0]);
      ListedRecordsAgree(rows[1..]);
      if DecodeRows(rows).Success? {
        var ps := DecodeRows(rows).value;
        assert ps[1..] == DecodeRows(rows[1..]).value;
      }
    }
  }

  lemma {:induction false} SoleHopRecordsAgree(row: Json, hops: seq<Json>)
    requires GetString(row, "ipprefix").Success?
    ensures SoleHopRecords(row, hops) == HopRecords(GetString(row, "ipprefix").value, hops)
    decreases |hops|
  {
    if hops != [] {
      SoleHopRecordsAgree(row, hops[1..]);
    }
  }

  /**
    * When `ipprefix` is a string, a single-object row gives what the same row
    * gives as an array element: same records, or the same error.
    */
  lemma SoleRowAgrees(row: Json)
    requires GetString(row, "ipprefix").Success?
    ensures SoleRowRecords(row) == ListedRowRecords(row)
  {
    if GetPath(row, PathPath).Success? && GetPath(row, PathPath).value.JArr? {
      SoleHopRecordsAgree(row, GetPath(row, PathPath).value.elems);
    }
  }

  /**
    * The script's normaliser is the reference one, `Flatten`, applied to the
    * typed reading of the reply: same records in the same order, or the same
    * error. The excluded case is described at `LazyPrefixCase`.
    */
  lemma GetRoutesAgrees(reply: Json)
    requires !LazyPrefixCase(reply)
    ensures GetRoutes(reply) == Flattened(Decode(reply))
  {
    if GetPath(reply, PrefixPath).Success? {
      var prefixes := GetPath(reply, PrefixPath).value;
      match prefixes
      case JArr(rows) =>
        ListedRecordsAgree(rows);
      case JObj(_) =>
        SoleRowAgrees(prefixes);
        ListedRowAgrees(prefixes);
        if DecodeRow(prefixes).Success? {
          var p := DecodeRow(prefixes).value;
          assert Flatten([p]) == RowRoutes(p) + Flatten([]);
          assert RowRoutes(p) + [] == RowRoutes(p);
        }
        assert GetRoutes(reply) == SoleRowRecords(prefixes);
      case _ =>
    }
  }

  /**
    * A single-object `ROW_prefix` normalises as a one-element array holding
    * the same object, provided its `ipprefix` is a string.
    */
  lemma SingleObjectAsOneElementList(row: Json)
    requires row.JObj? && GetString(row, "ipprefix").Success?
    ensures GetRoutes(Nest(PrefixPath, row)) == GetRoutes(Nest(PrefixPath, JArr([row])))
  {
    GetPathNest(PrefixPath, row);
    GetPathNest(PrefixPath, JArr([row]));
    SoleRowAgrees(row);
    assert [row][1..] == [];
    assert GetRoutes(Nest(PrefixPath, row)) == SoleRowRecords(row);
    assert GetRoutes(Nest(PrefixPath, JArr([row]))) == ListedRecords([row]);
    assert ListedRecords([]) == Success([]);
    if ListedRowRecords(row).Success? {
      assert ListedRowRecords(row).value + [] == ListedRowRecords(row).value;
    }
  }

  /** A row with an empty `ROW_path` array and no `ipprefix`. */
  function RowWithoutPrefix(): Json {
    JObj(map["TABLE_path" := JObj(map["ROW_path" := JArr([])])])
  }

  lemma RowWithoutPrefixAsObject()
    ensures GetRoutes(Nest(PrefixPath, RowWithoutPrefix())) == Success([])
  {
    var row := RowWithoutPrefix();
    GetPathNest(PrefixPath, row);
    assert GetPath(row, PathPath) == Success(JArr([]));
  }

  lemma RowWithoutPrefixInList()
    ensures GetRoutes(Nest(PrefixPath, JArr([RowWithoutPrefix()]))) == Failure(KeyError("ipprefix"))
  {
    var row := RowWithoutPrefix();
    GetPathNest(PrefixPath, JArr([row]));
    assert "ipprefix" !in row.fields;
    assert ListedRowRecords(row) == Failure(KeyError("ipprefix"));
  }

  /**
    * Without `ipprefix` the two shapes part ways: a single object whose
    * `ROW_path` is an empty array yields no routes, while the same object as
    * the only array element raises `KeyError('ipprefix')`.
    */
  lemma SingleObjectWithoutPrefix()
    ensures var row := RowWithoutPrefix();
      && GetRoutes(Nest(PrefixPath, row)) == Success([])
      && GetRoutes(Nest(PrefixPath, JArr([row]))) == Failure(KeyError("ipprefix"))
  {
    RowWithoutPrefixAsObject();
    RowWithoutPrefixInList();
  }

  /**
    * An empty object as the whole `ROW_prefix` fails on the missing
    * `TABLE_path`; the same object as the only array element fails on the
    * missing `ipprefix`, which the array branch reads first.
    */
  lemma EmptyObjectErrorsDiffer()
    ensures GetRoutes(Nest(PrefixPath, JObj(map[]))) == Failure(KeyError("TABLE_path"))
    ensures GetRoutes(Nest(PrefixPath, JArr([JObj(map[])]))) == Failure(KeyError("ipprefix"))
  {
    GetPathNest(PrefixPath, JObj(map[]));
    GetPathNest(PrefixPath, JArr([JObj(map[])]));
    assert ListedRowRecords(JObj(map[])) == Failure(KeyError("ipprefix"));
  }

  // ---------------------------------------------------------------------------
  // Well-formed replies

  function EncodeHop(h: NextHop): Json {
    JObj(map["ipnexthop" := JStr(h.ipnexthop), "clientname" := JStr(h.clientname)])
  }

  function EncodeHops(hs: seq<NextHop>): (js: seq<Json>)
    ensures |js| == |hs|
  {
    if hs == [] then [] else [EncodeHop(hs[0])] + EncodeHops(hs[1..])
  }

  function EncodePaths(s: Shape<NextHop>): Json {
    match s
    case One(h) => EncodeHop(h)
    case Many(hs) => JArr(EncodeHops(hs))
  }

  function EncodeRow(p: PrefixRow): Json {
    JObj(map["ipprefix" := JStr(p.ipprefix), "TABLE_path" := JObj(map["ROW_path" := EncodePaths(p.paths)])])
  }

  function EncodeRows(ps: seq<PrefixRow>): (js: seq<Json>)
    ensures |js| == |ps|
  {
    if ps == [] then [] else [EncodeRow(ps[0])] + EncodeRows(ps[1..])
  }

  /** The reply the device gives for a prefix table, with only the fields the monitor reads. */
  function EncodeReply(t: Shape<PrefixRow>): Json {
    match t
    case One(p) => Nest(PrefixPath, EncodeRow(p))
    case Many(ps) => Nest(PrefixPath, JArr(EncodeRows(ps)))
  }

  lemma DecodeEncodeHop(h: NextHop)
    ensures DecodeHop(EncodeHop(h)) == Success(h)
  {
    assert "ipnexthop" != "clientname";
  }

  lemma {:induction false} DecodeEncodeHops(hs: seq<NextHop>)
    ensures DecodeHops(EncodeHops(hs)) == Success(hs)
    decreases |hs|
  {
    if hs != [] {
      DecodeEncodeHop(hs[0]);
      DecodeEncodeHops(hs[1..]);
      assert EncodeHops(hs)[1..] == EncodeHops(hs[1..]);
      assert [hs[0]] + hs[1..] == hs;
    }
  }

  lemma DecodeEncodeRow(p: PrefixRow)
    ensures DecodeRow(EncodeRow(p)) == Success(p)
  {
    assert "ipprefix" != "TABLE_path";
    var paths := EncodePaths(p.paths);
    assert GetPath(EncodeRow(p), PathPath) == Success(paths);
    match p.paths
    case One(h) => DecodeEncodeHop(h);
    case Many(hs) => DecodeEncodeHops(hs);
  }

  lemma {:induction false} DecodeEncodeRows(ps: seq<PrefixRow>)
    ensures DecodeRows(EncodeRows(ps)) == Success(ps)
    decreases |ps|
  {
    if ps != [] {
      DecodeEncodeRow(ps[0]);
      DecodeEncodeRows(ps[1..]);
      assert EncodeRows(ps)[1..] == EncodeRows(ps[1..]);
      assert [ps[0]] + ps[1..] == ps;
    }
  }

  /** Reading a well-formed reply recovers the prefix table it was written from. */
  lemma DecodeEncode(t: Shape<PrefixRow>)
    ensures Decode(EncodeReply(t)) == Success(t)
  {
    match t
    case One(p) =>
      GetPathNest(PrefixPath, EncodeRow(p));
      DecodeEncodeRow(p);
    case Many(ps) =>
      GetPathNest(PrefixPath, JArr(EncodeRows(ps)));
      DecodeEncodeRows(ps);
  }

  /**
    * On a well-formed reply the script's normaliser yields exactly the flat
    * list: one record per next hop, grouped by prefix in reply order.
    */
  lemma GetRoutesOfWellFormed(t: Shape<PrefixRow>)
    ensures GetRoutes(EncodeReply(t)) == Success(Flatten(Items(t)))
  {
    DecodeEncode(t);
    if t.One? {
      GetPathNest(PrefixPath, EncodeRow(t.item));
      assert "ipprefix" in EncodeRow(t.item).fields;
    }
    GetRoutesAgrees(EncodeReply(t));
  }
}
