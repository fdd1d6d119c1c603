/** A parsed YAML document as the Python tooling sees it after
    `yaml.safe_load`: `None`, booleans, integers, strings, lists and
    mappings. A mapping keeps its keys in document order; like a Python
    `dict` it is read with `get`, iterated in that order, and checked for
    truth. `PyStr` is Python's `str()` of such a value. */
module Yaml {
  import opened Wrappers
  import opened Sequences
  import opened Decimal

  datatype Val =
    | Null
    | Bool(b: bool)
    | Int(i: int)
    | Str(s: string)
    | List(items: seq<Val>)
    | Map(entries: seq<(string, Val)>)

  /** A Python `dict` holds each key once. */
  predicate IsDict(entries: seq<(string, Val)>) {
    forall i, j :: 0 <= i < j < |entries| ==> entries[i].0 != entries[j].0
  }

  // `d.get(key)` is `Get(d, key)` of `Sequences`: the first entry named `key`.

  /** In a dict, `get` returns the one value stored under the key. */
  lemma {:induction false} GetFindsTheEntry(entries: seq<(string, Val)>, key: string, v: Val)
    requires IsDict(entries)
    requires (key, v) in entries
    ensures Get(entries, key) == Some(v)
  {
    if entries[0] != (key, v) {
      assert (key, v) in entries[1..];
      GetFindsTheEntry(entries[1..], key, v);
    }
  }

  /** `d.get(key, default)`; `d.get(key)` is `GetOr(d, key, Null)`. */
  function GetOr(entries: seq<(string, Val)>, key: string, default: Val): (r: Val)
    ensures key !in Keys(entries) ==> r == default
    ensures key in Keys(entries) ==> (key, r) in entries
  {
    match Get(entries, key)
    case Some(v) => v
    case None => default
  }

  /** Python truthiness: `None`, `False`, `0` and empty strings and
      containers are false. */
  predicate Truthy(v: Val) {
    match v
    case Null => false
    case Bool(b) => b
    case Int(i) => i != 0
    case Str(s) => s != []
    case List(items) => items != []
    case Map(entries) => entries != []
  }

  /** `value or {}`: a false value becomes an empty mapping. */
  function OrEmpty(v: Val): (r: Val)
    ensures Truthy(v) ==> r == v
    ensures !Truthy(v) ==> r == Map([])
    ensures r.Map? <==> v.Map? || !Truthy(v)
  {
    if Truthy(v) then v else Map([])
  }

  function Join(parts: seq<string>): string {
    if parts == [] then []
    else if |parts| == 1 then parts[0]
    else parts[0] + ", " + Join(parts[1..])
  }

  /** Python's `repr()`: how `str()` of a list or mapping shows its members. */
  function Repr(v: Val): string {
    match v
    case Null => "None"
    case Bool(b) => if b then "True" else "False"
    case Int(i) => IntText(i)
    case Str(s) => "'" + s + "'"
    case List(items) =>
      "[" + Join(seq(|items|, k requires 0 <= k < |items| => Repr(items[k]))) + "]"
    case Map(entries) =>
      "{" + Join(seq(|entries|, k requires 0 <= k < |entries| => "'" + entries[k].0 + "': " + Repr(entries[k].1))) + "}"
  }

  /** Python's `str()`: a string is itself, every other value its `repr()`. */
  function PyStr(v: Val): (t: string)
    ensures v.Str? ==> t == v.s
    ensures v.Null? ==> t == "None"
    ensures v.Bool? ==> t == (if v.b then "True" else "False")
    ensures v.Int? ==> t == IntText(v.i)
  {
    if v.Str? then v.s else Repr(v)
  }
}
