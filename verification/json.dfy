/**
 * An already-decoded JSON value, as `json.loads` hands it to Python, together
 * with the two Python idioms the checker applies to it: truthiness (`if x:`,
 * `a or b`) and `dict.get(key)` with its `None` default.
 */
module Json {

  /** Numbers are integers only; floating-point values are not modelled. */
  datatype Json =
    | Null
    | Bool(b: bool)
    | Num(n: int)
    | Str(s: string)
    | Arr(items: seq<Json>)
    | Obj(fields: map<string, Json>)

  /** Python truthiness: None, False, 0, "", [] and {} are false. */
  predicate Truthy(j: Json)
  {
    match j
    case Null => false
    case Bool(b) => b
    case Num(n) => n != 0
    case Str(s) => s != []
    case Arr(a) => a != []
    case Obj(f) => f != map[]
  }

  /** `d.get(k)`: the value under `k`, or None when absent. */
  function Get(d: map<string, Json>, k: string): (v: Json)
    ensures k in d ==> v == d[k]
    ensures k !in d ==> v == Null
  {
    if k in d then d[k] else Null
  }

  /** Python's `a or b`: `a` when truthy, otherwise `b`. */
  function Or(a: Json, b: Json): (r: Json)
    ensures Truthy(r) <==> Truthy(a) || Truthy(b)
    ensures Truthy(a) ==> r == a
    ensures !Truthy(a) ==> r == b
  {
    if Truthy(a) then a else b
  }

  const EmptyObj: Json := Obj(map[])
}
