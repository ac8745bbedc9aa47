/** A ComfyUI workflow as the pipeline sees it after JSON decoding: an ordered
    mapping from node id to node, where each node has a `class_type`, an
    `inputs` mapping and an optional `_meta.title`. */
module Workflow {
  import opened Text

  /** An input value. `VNull` is JSON `null` (Python `None`); `VList` is a JSON
      array, used by ComfyUI for `[node_id, slot]` links; `VOther` stands for
      a value the core never inspects (a float, say), kept with its `str()`
      rendering and its truth value. */
  datatype Value =
    | VStr(s: string)
    | VInt(i: int)
    | VBool(b: bool)
    | VNull
    | VList(items: seq<Value>)
    | VOther(repr: string, truthy: bool)

  /** Python truthiness. */
  predicate Truthy(v: Value)
  {
    match v
    case VStr(s) => s != ""
    case VInt(i) => i != 0
    case VBool(b) => b
    case VNull => false
    case VList(items) => items != []
    case VOther(_, t) => t
  }

  /** Python's `a or b`: the first operand when it is truthy, else the second. */
  function Or(a: Value, b: Value): (r: Value)
    ensures Truthy(a) ==> r == a
    ensures !Truthy(a) ==> r == b
  {
    if Truthy(a) then a else b
  }

  /** Python's `str(v)`; list items appear as their `repr`. */
  function Str(v: Value): string
    decreases v, 1
  {
    match v
    case VStr(s) => s
    case VInt(i) => IntToString(i)
    case VBool(b) => if b then "True" else "False"
    case VNull => "None"
    case VList(items) => "[" + Join(", ", seq(|items|, k requires 0 <= k < |items| => Repr(items[k]))) + "]"
    case VOther(r, _) => r
  }

  /** Python's `repr(v)`; strings are quoted (escapes are not modelled). */
  function Repr(v: Value): string
    decreases v, 2
  {
    if v.VStr? then "'" + v.s + "'" else Str(v)
  }

  /** A node of the workflow; `title` is `_meta.title`, "" when absent. */
  datatype Node = Node(classType: string, inputs: map<string, Value>, title: string)

  /** A decoded workflow may hold entries that are not JSON objects. */
  datatype Entry = NodeEntry(node: Node) | NotDict(value: Value)

  /** The decoded `prompt` object in key order. */
  type Graph = seq<(string, Entry)>

  predicate IsNode(e: Entry) { e.NodeEntry? }

  /** Every entry is a JSON object: code that calls `entry.get` without a
      type test needs this, or it raises `AttributeError`. */
  predicate AllNodes(g: Graph)
  {
    forall i :: 0 <= i < |g| ==> IsNode(g[i].1)
  }

  /** Dictionary keys are unique. */
  predicate DistinctKeys(g: Graph)
  {
    forall i, j :: 0 <= i < j < |g| ==> g[i].0 != g[j].0
  }

  /** `metadata.get(key)`: the entry stored under `key`, if any. */
  function Lookup(g: Graph, key: string): (r: Option<Entry>)
    ensures r.None? <==> forall i :: 0 <= i < |g| ==> g[i].0 != key
    ensures r.Some? ==> exists i :: 0 <= i < |g| && g[i] == (key, r.value)
  {
    if g == [] then None
    else if g[0].0 == key then
      assert g[0] == (key, g[0].1);
      Some(g[0].1)
    else
      var r := Lookup(g[1..], key);
      if r.Some? then
        var i :| 0 <= i < |g[1..]| && g[1..][i] == (key, r.value);
        assert g[i + 1] == (key, r.value);
        r
      else r
  }

  /** With unique keys the entry found is the one stored under `key`. */
  lemma {:induction false} LookupAt(g: Graph, i: nat)
    requires DistinctKeys(g) && i < |g|
    ensures Lookup(g, g[i].0) == Some(g[i].1)
  {
    if i > 0 {
      assert g[0].0 != g[i].0;
      assert g[1..][i - 1] == g[i];
      LookupAt(g[1..], i - 1);
    }
  }
}
