/** JSON values, with objects as unordered maps (packages/model-option-map/src/types.ts). */
module Json {
  import opened Options

  datatype Value =
    | Null
    | Bool(b: bool)
    | Num(n: real)
    | Str(s: string)
    | Arr(elements: seq<Value>)
    | Obj(members: map<string, Value>)

  type Path = seq<string>

  const EMPTY := Obj(map[])

  function Members(v: Value): map<string, Value> {
    if v.Obj? then v.members else map[]
  }

  /** The value found by following keys through objects only. */
  function Lookup(v: Value, path: Path): Option<Value>
    decreases |path|
  {
    if path == [] then Some(v)
    else if path[0] in Members(v) then Lookup(Members(v)[path[0]], path[1..])
    else None
  }

  predicate NonEmptyObject(v: Value) {
    v.Obj? && v.members != map[]
  }

  function Child(v: Value, key: string): Value {
    if key in Members(v) then Members(v)[key] else Null
  }
}
