/**
  * The decoded reply of the device's `show ip route vrf ...` command: the
  * generic JSON value that Python's `json.loads` produces, and the errors that
  * subscripting it can raise.
  */
module RawJson {
  import opened Wrappers

  /** A JSON value; objects are maps because `json.loads` keeps the last of duplicated keys. */
  datatype Json =
    | JNull
    | JBool(b: bool)
    | JNum(n: int)
    | JStr(s: string)
    | JArr(elems: seq<Json>)
    | JObj(fields: map<string, Json>)

  /** Why a traversal of the reply stopped. */
  datatype Error =
    | KeyError(key: string)    // `d[key]` on a dict without that key
    | TypeError(key: string)   // `v[key]` on a list, string, number, boolean or None
    | NotAString(key: string)  // a field that should hold text holds some other value

  /** Python's `j[key]` on a decoded JSON value. */
  function Get(j: Json, key: string): Result<Json, Error> {
    match j
    case JObj(fields) => if key in fields then Success(fields[key]) else Failure(KeyError(key))
    case _ => Failure(TypeError(key))
  }

  /** `j[key]`, where the field is expected to hold a string. */
  function GetString(j: Json, key: string): Result<string, Error> {
    var v :- Get(j, key);
    if v.JStr? then Success(v.s) else Failure(NotAString(key))
  }

  /** `j[keys[0]][keys[1]]...`, stopping at the first subscript that raises. */
  function GetPath(j: Json, keys: seq<string>): Result<Json, Error>
    decreases |keys|
  {
    if keys == [] then Success(j)
    else
      var next :- Get(j, keys[0]);
      GetPath(next, keys[1..])
  }

  /** The JSON value holding `v` under the chain of single-key objects `keys`. */
  function Nest(keys: seq<string>, v: Json): Json
    decreases |keys|
  {
    if keys == [] then v else JObj(map[keys[0] := Nest(keys[1..], v)])
  }

  /** Walking down a chain of nested objects finds what was put at its bottom. */
  lemma {:induction false} GetPathNest(keys: seq<string>, v: Json)
    ensures GetPath(Nest(keys, v), keys) == Success(v)
    decreases |keys|
  {
    if keys != [] {
      GetPathNest(keys[1..], v);
    }
  }
}
