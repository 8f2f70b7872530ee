/**
  * The canonical route records the monitor compares, and the clean typed view
  * of the device's route table: a container that holds one entry is reported
  * as a single object, one that holds several as an array.
  */
module Routes {

  /**
    * One flattened route: a prefix, one of its next hops, and the protocol
    * (NX-OS "clientname") that installed it. It stands for the one-key dict
    * `{prefix: {"nexthop": ..., "proto": ...}}` of the script, and two records
    * are equal exactly when those dicts are.
    */
  datatype Route = Route(prefix: string, nexthop: string, proto: string)

  /** A container reported as a single object or as an array of objects. */
  datatype Shape<T> = One(item: T) | Many(items: seq<T>)

  /** The entries of a container, whatever its shape. */
  function Items<T>(s: Shape<T>): seq<T> {
    match s
    case One(x) => [x]
    case Many(xs) => xs
  }

  /** A `ROW_path` entry: the fields of a path the monitor keeps. */
  datatype NextHop = NextHop(ipnexthop: string, clientname: string)

  /** A `ROW_prefix` entry: the prefix and its `TABLE_path.ROW_path` container. */
  datatype PrefixRow = PrefixRow(ipprefix: string, paths: Shape<NextHop>)

  /** Number of next hops a prefix row carries. */
  function HopCount(p: PrefixRow): nat {
    |Items(p.paths)|
  }

  /** The record for the `j`-th next hop of row `p`. */
  function HopRoute(p: PrefixRow, j: nat): Route
    requires j < HopCount(p)
  {
    Route(p.ipprefix, Items(p.paths)[j].ipnexthop, Items(p.paths)[j].clientname)
  }

  /** One record per next hop, every record carrying `prefix`, in next-hop order. */
  function FanOut(prefix: string, hops: seq<NextHop>): (rs: seq<Route>)
    ensures |rs| == |hops|
    ensures forall i :: 0 <= i < |hops| ==> rs[i] == Route(prefix, hops[i].ipnexthop, hops[i].clientname)
    ensures forall r :: r in rs ==> r.prefix == prefix
  {
    if hops == [] then []
    else [Route(prefix, hops[0].ipnexthop, hops[0].clientname)] + FanOut(prefix, hops[1..])
  }

  /** The records one prefix row contributes. */
  function RowRoutes(p: PrefixRow): (rs: seq<Route>)
    ensures |rs| == HopCount(p)
    ensures forall j :: 0 <= j < HopCount(p) ==> rs[j] == HopRoute(p, j)
    ensures p.paths.One? ==> |rs| == 1
  {
    FanOut(p.ipprefix, Items(p.paths))
  }

  /** Total number of next hops over a sequence of rows. */
  function TotalHops(rows: seq<PrefixRow>): nat {
    if rows == [] then 0 else HopCount(rows[0]) + TotalHops(rows[1..])
  }

  /** The flat route list: each row's records, rows in input order. */
  function Flatten(rows: seq<PrefixRow>): (rs: seq<Route>)
    ensures |rs| == TotalHops(rows)
  {
    if rows == [] then [] else RowRoutes(rows[0]) + Flatten(rows[1..])
  }

  /** Flattening distributes over concatenation of row sequences. */
  lemma {:induction false} FlattenAppend(a: seq<PrefixRow>, b: seq<PrefixRow>)
    ensures Flatten(a + b) == Flatten(a) + Flatten(b)
    ensures TotalHops(a + b) == TotalHops(a) + TotalHops(b)
    decreases |a|
  {
    if a == [] {
      assert a + b == b;
    } else {
      assert (a + b)[1..] == a[1..] + b;
      FlattenAppend(a[1..], b);
    }
  }

  /**
    * Records come grouped by prefix in input order: the records of row `i`
    * sit, as one block, right after those of the rows before it.
    */
  lemma {:induction false} FlattenGrouped(rows: seq<PrefixRow>, i: nat)
    requires i < |rows|
    ensures TotalHops(rows[..i]) + HopCount(rows[i]) <= |Flatten(rows)|
    ensures Flatten(rows)[TotalHops(rows[..i]) .. TotalHops(rows[..i]) + HopCount(rows[i])] == RowRoutes(rows[i])
  {
    var before, row, after := rows[..i], rows[i], rows[i + 1..];
    assert rows == before + ([row] + after);
    FlattenAppend(before, [row] + after);
    FlattenAppend([row], after);
    FlattenOne(row);
    var x, y, z := Flatten(before), RowRoutes(row), Flatten(after);
    assert Flatten(rows) == x + (y + z);
    assert |x| == TotalHops(before) && |y| == HopCount(row);
    SliceMiddle(x, y, z);
  }

  lemma FlattenOne(row: PrefixRow)
    ensures Flatten([row]) == RowRoutes(row)
  {
    assert [row][1..] == [];
  }

  lemma SliceMiddle<T>(x: seq<T>, y: seq<T>, z: seq<T>)
    ensures (x + (y + z))[|x| .. |x| + |y|] == y
  {
  }

  /**
    * Nothing is filtered: a record is in the flat list exactly when it is the
    * record of some next hop of some row.
    */
  lemma {:induction false} FlattenMembers(rows: seq<PrefixRow>, r: Route)
    ensures r in Flatten(rows) <==>
      exists i, j :: 0 <= i < |rows| && 0 <= j < HopCount(rows[i]) && r == HopRoute(rows[i], j)
    decreases |rows|
  {
    if rows != [] {
      FlattenMembers(rows[1..], r);
      if r in Flatten(rows) {
        if r in RowRoutes(rows[0]) {
          var j :| 0 <= j < |RowRoutes(rows[0])| && RowRoutes(rows[0])[j] == r;
          assert r == HopRoute(rows[0], j);
        } else {
          assert r in Flatten(rows[1..]);
          var i, j :| 0 <= i < |rows[1..]| && 0 <= j < HopCount(rows[1..][i]) && r == HopRoute(rows[1..][i], j);
          assert r == HopRoute(rows[i + 1], j);
        }
      } else {
        forall i, j | 0 <= i < |rows| && 0 <= j < HopCount(rows[i])
          ensures r != HopRoute(rows[i], j)
        {
          if i == 0 {
            assert HopRoute(rows[0], j) == RowRoutes(rows[0])[j];
          } else {
            assert rows[i] == rows[1..][i - 1];
          }
        }
      }
    }
  }

  /** Every prefix that has at least one next hop appears in the flat list. */
  lemma {:induction false} NoPrefixDropped(rows: seq<PrefixRow>, i: nat)
    requires i < |rows| && HopCount(rows[i]) > 0
    ensures exists r :: r in Flatten(rows) && r.prefix == rows[i].ipprefix
  {
    FlattenMembers(rows, HopRoute(rows[i], 0));
  }
}
