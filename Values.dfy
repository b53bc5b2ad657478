/** Decoded JSON as the Python code sees it: the snapshot, its rows and cells
    and the colour records are all such loosely-typed values, and the code
    tests their runtime types (`isinstance`) before using them. */
module Values {

  datatype Option<T> = None | Some(value: T)

  /** A JSON value after decoding. A dictionary keeps its entries in
      insertion order, the order Python's `dict.items()` yields them.
      A number carries its value and `text`, the string Python's `str()`
      gives for it. */
  datatype Value =
    | VNull
    | VBool(b: bool)
    | VNum(x: real, text: string)
    | VStr(s: string)
    | VList(items: seq<Value>)
    | VDict(entries: seq<(string, Value)>)

  /** The value stored under `key`, if any: the first entry with `key`. The
      model assumes the entries of a dictionary have distinct keys, as every
      Python `dict` does; `VDict` itself does not enforce it, and where a JSON
      text repeats a key Python's decoder keeps the last value, which this
      model does not represent. */
  function Get(entries: seq<(string, Value)>, key: string): (r: Option<Value>)
    ensures r.Some? <==> exists k :: 0 <= k < |entries| && entries[k].0 == key
    ensures r.Some? ==> exists k :: 0 <= k < |entries| && entries[k] == (key, r.value)
  {
    if entries == [] then None
    else if entries[0].0 == key then Some(entries[0].1)
    else
      var r := Get(entries[1..], key);
      assert forall k :: 1 <= k < |entries| ==> entries[k] == entries[1..][k - 1];
      r
  }

  predicate HasKey(entries: seq<(string, Value)>, key: string) {
    Get(entries, key).Some?
  }

  /** Python's `d.get(key, default)`. */
  function GetOr(entries: seq<(string, Value)>, key: string, default: Value): Value {
    match Get(entries, key)
    case Some(v) => v
    case None => default
  }

  /** Python's truthiness: `None`, `False`, zero, and empty strings, lists and
      dictionaries are false. */
  predicate Falsy(v: Value) {
    match v
    case VNull => true
    case VBool(b) => !b
    case VNum(x, _) => x == 0.0
    case VStr(s) => s == []
    case VList(items) => items == []
    case VDict(entries) => entries == []
  }

  /** Python's `sep.join(parts)`. */
  function Join(sep: string, parts: seq<string>): string {
    if parts == [] then []
    else if |parts| == 1 then parts[0]
    else parts[0] + sep + Join(sep, parts[1..])
  }

  /** Python's `repr()`: strings are quoted, everything else prints as `str()`. */
  function Repr(v: Value): string
    decreases v, 1
  {
    if v.VStr? then "'" + v.s + "'" else Str(v)
  }

  /** Python's `str()` of a decoded value. */
  function Str(v: Value): (r: string)
    ensures v.VStr? ==> r == v.s
    decreases v, 0
  {
    match v
    case VNull => "None"
    case VBool(b) => if b then "True" else "False"
    case VNum(_, text) => text
    case VStr(s) => s
    case VList(items) =>
      "[" + Join(", ", seq(|items|, k requires 0 <= k < |items| => Repr(items[k]))) + "]"
    case VDict(entries) =>
      "{" + Join(", ", seq(|entries|, k requires 0 <= k < |entries| =>
                             assert entries[k].1 < entries[k] < v;
                             "'" + entries[k].0 + "': " + Repr(entries[k].1))) + "}"
  }
}
