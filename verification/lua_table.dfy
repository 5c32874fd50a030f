/**
 The configuration table a checker is built from. In the system it is a Lua
 table handed over by the scripting front end; here it is a finite map from
 string keys to a small closed set of scalar values. A key whose Lua value
 is nil is simply absent from the map.
 */
module LuaTables {
  import opened CInts

  /** The scalar values a configuration entry can hold. Lua integers are
      unbounded here; their narrowing to `Int32` is explicit in `ToCInt`. */
  datatype Value =
    | Int(n: int)
    | Str(s: string)
    | Bool(b: bool)

  type Table = map<string, Value>

  /** `table.get_or(key, default)` asking for an `int`: the entry's value when
      the key is present and holds an integer, the default otherwise. */
  function GetOr(t: Table, key: string, default: Int32): (r: Int32)
    ensures key in t && t[key].Int? ==> r == ToCInt(t[key].n)
    ensures key !in t ==> r == default
    ensures key in t && !t[key].Int? ==> r == default
  {
    if key in t && t[key].Int? then ToCInt(t[key].n) else default
  }

  /** `table[key] = nil`: the key disappears, every other entry stays. */
  function Erase(t: Table, key: string): (r: Table)
    ensures key !in r
    ensures r.Keys == t.Keys - {key}
    ensures forall k :: k in r ==> r[k] == t[k]
  {
    t - {key}
  }
}
