/**
 * The trees a YAML loader produces, with Python's view of them: truthiness, `d.get(k, default)`
 * and `d.items()` (which fails on anything but a mapping). Mapping keys are strings and keep
 * their document order.
 */
module YamlTree {
  import opened Wrappers

  datatype Yaml =
    | YNull
    | YBool(b: bool)
    | YInt(i: int)
    | YStr(s: string)
    | YList(items: seq<Yaml>)
    | YMap(entries: seq<(string, Yaml)>)
  {
    /** Python truthiness: None, False, 0 and empty strings, lists and mappings are false. */
    predicate Truthy() {
      match this
      case YNull => false
      case YBool(b) => b
      case YInt(i) => i != 0
      case YStr(s) => s != []
      case YList(xs) => xs != []
      case YMap(es) => es != []
    }
  }

  /** The value stored under `k`, if any (the first entry with that key). */
  function Lookup(entries: seq<(string, Yaml)>, k: string): (r: Option<Yaml>)
    ensures r.Some? ==> exists i :: 0 <= i < |entries| && entries[i] == (k, r.value)
    ensures r.None? ==> forall i :: 0 <= i < |entries| ==> entries[i].0 != k
    ensures r.Some? ==> r.value < YMap(entries)
  {
    if entries == [] then None
    else if entries[0].0 == k then Some(entries[0].1)
    else Lookup(entries[1..], k)
  }

  /** `d.get(k, default)`: a present key yields its value even when that value is null. */
  function GetOr(entries: seq<(string, Yaml)>, k: string, default: Yaml): Yaml {
    Lookup(entries, k).GetOr(default)
  }

  /** `x.items()` (or any other dict method) on `x`: an AttributeError unless `x` is a mapping. */
  function Items(y: Yaml): (r: Result<seq<(string, Yaml)>>)
    ensures r.Ok? <==> y.YMap?
    ensures r.Ok? ==> y == YMap(r.value)
  {
    if y.YMap? then Ok(y.entries) else Err("AttributeError: not a mapping")
  }

  /** `{k: v for k, v in d.items() if k != key}`. */
  function Without(entries: seq<(string, Yaml)>, key: string): (r: seq<(string, Yaml)>)
    ensures forall i :: 0 <= i < |r| ==> r[i].0 != key && r[i] in entries
    ensures forall i :: 0 <= i < |entries| && entries[i].0 != key ==> entries[i] in r
  {
    if entries == [] then []
    else if entries[0].0 == key then Without(entries[1..], key)
    else [entries[0]] + Without(entries[1..], key)
  }
}
