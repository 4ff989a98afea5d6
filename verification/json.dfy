/** JSON-like values: what `json.loads` returns and what the agents hand back
    to the HTTP layer. An object's entries stand for a Python dict, so their
    keys are meant to be distinct; lookups read the first entry with a key. */
module Json {
  import opened Outcomes

  datatype Json =
    | JNull
    | JBool(b: bool)
    | JNum(n: real)
    | JStr(s: string)
    | JArr(items: seq<Json>)
    | JObj(entries: seq<(string, Json)>)

  /** `d.get(key)` on a dict, `None` when the key is absent. */
  function Get(entries: seq<(string, Json)>, key: string): Option<Json> {
    if |entries| == 0 then None
    else if entries[0].0 == key then Some(entries[0].1)
    else Get(entries[1..], key)
  }

  /** The field `key` of `v` when `v` is an object that has it. */
  function Field(v: Json, key: string): Option<Json> {
    if v.JObj? then Get(v.entries, key) else None
  }

  /** The value reached by following `path` through nested objects. */
  function Path(v: Json, path: seq<string>): Option<Json>
    decreases |path|
  {
    if |path| == 0 then Some(v)
    else
      match Field(v, path[0])
      case None => None
      case Some(w) => Path(w, path[1..])
  }

  /** A list of strings as a JSON array. */
  function Strings(names: seq<string>): (r: Json)
    ensures r.JArr? && |r.items| == |names|
    ensures forall k :: 0 <= k < |names| ==> r.items[k] == JStr(names[k])
  {
    JArr(seq(|names|, k requires 0 <= k < |names| => JStr(names[k])))
  }

  /** A list of floats as a JSON array. */
  function Numbers(xs: seq<real>): (r: Json)
    ensures r.JArr? && |r.items| == |xs|
    ensures forall k :: 0 <= k < |xs| ==> r.items[k] == JNum(xs[k])
  {
    JArr(seq(|xs|, k requires 0 <= k < |xs| => JNum(xs[k])))
  }

  /** Looking up the key of entry `i` finds that entry when no earlier entry
      shares its key. */
  lemma {:induction false} GetAt(entries: seq<(string, Json)>, i: int)
    requires 0 <= i < |entries|
    requires forall j :: 0 <= j < i ==> entries[j].0 != entries[i].0
    ensures Get(entries, entries[i].0) == Some(entries[i].1)
    decreases i
  {
    if i > 0 {
      var rest := entries[1..];
      assert rest[i - 1] == entries[i];
      GetAt(rest, i - 1);
    }
  }

  /** Paths of length one, two and three, spelled out. */
  lemma PathSteps(v: Json, a: string, b: string, c: string)
    ensures Path(v, [a]) == Field(v, a)
    ensures Path(v, [a, b]) == if Field(v, a).Some? then Field(Field(v, a).value, b) else None
    ensures Path(v, [a, b, c]) ==
              if Field(v, a).Some? then Path(Field(v, a).value, [b, c]) else None
  {
    assert [a][1..] == [];
    assert [a, b][1..] == [b];
    assert [b][1..] == [];
    assert [a, b, c][1..] == [b, c];
    match Field(v, a)
    case None =>
    case Some(w) =>
      assert Path(w, [b]) == Field(w, b);
  }
}
