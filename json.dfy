// JSON-shaped values as the backend receives them from requests and socket events,
// with Python's truthiness and `int()` conversion.
module JsonValues {
  import opened Wrappers
  import Text

  /** A decoded JSON value; objects keep their key order (Python dicts are ordered).
      JSON numbers are integers in this model. */
  datatype Json =
    | JNull
    | JBool(b: bool)
    | JInt(i: int)
    | JStr(s: string)
    | JList(items: seq<Json>)
    | JObj(fields: seq<(string, Json)>)

  /** Python's `bool(value)`. */
  predicate Truthy(v: Json)
  {
    match v
    case JNull => false
    case JBool(b) => b
    case JInt(i) => i != 0
    case JStr(s) => s != ""
    case JList(xs) => xs != []
    case JObj(fs) => fs != []
  }

  /** Python's `int(value)`; `None` where Python raises. */
  function PyInt(v: Json): (r: Option<int>)
    ensures v.JInt? ==> r == Some(v.i)
    ensures v.JBool? ==> r == Some(if v.b then 1 else 0)
    ensures (v.JNull? || v.JList? || v.JObj?) ==> r.None?
  {
    match v
    case JInt(i) => Some(i)
    case JBool(b) => Some(if b then 1 else 0)
    case JStr(s) => Text.ParseInt(s)
    case _ => None
  }

  /** A JSON object as a Python dict (`dict(pairs)`: a later duplicate key wins). */
  function ObjToMap(fields: seq<(string, Json)>): (m: map<string, Json>)
    ensures forall k :: k in m <==> exists i :: 0 <= i < |fields| && fields[i].0 == k
  {
    if |fields| == 0 then map[]
    else
      var last := fields[|fields| - 1];
      var m0 := ObjToMap(fields[..|fields| - 1]);
      assert forall i :: 0 <= i < |fields| - 1 ==> fields[..|fields| - 1][i] == fields[i];
      m0[last.0 := last.1]
  }
}
