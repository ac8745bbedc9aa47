/** The selection logic of `EnhancedMetadataFormatter`
    (core/enhanced_metadata_formatter.py): grouping signatures, the text
    reference resolver, and which node supplies each value of the report. */
module Formatter {
  import opened Text
  import opened Workflow
  import StrOrder
  import Analyzer

  /* ---------------------------------------------------------------------- */
  /* LoRA stack and grouping signatures                                     */
  /* ---------------------------------------------------------------------- */

  predicate IsLoraLoader(e: Entry)
  {
    e.NodeEntry? && e.node.classType == "LoraLoader" && "lora_name" in e.node.inputs
  }

  /** Some `LoraLoader` entry of `g` names `v`. */
  predicate HasLoraName(g: Graph, v: Value)
  {
    exists i :: 0 <= i < |g| && IsLoraLoader(g[i].1) && g[i].1.node.inputs["lora_name"] == v
  }

  /** The `lora_name` of every `LoraLoader` node, in node order. */
  function LoraLoaderNames(g: Graph): (r: seq<Value>)
    ensures forall v :: v in r <==> HasLoraName(g, v)
  {
    if g == [] then []
    else
      var rest := LoraLoaderNames(g[1..]);
      var r := (if IsLoraLoader(g[0].1) then [g[0].1.node.inputs["lora_name"]] else []) + rest;
      forall v ensures v in r <==> HasLoraName(g, v) {
        if v in rest {
          var i :| 0 <= i < |g[1..]| && IsLoraLoader(g[1..][i].1) && g[1..][i].1.node.inputs["lora_name"] == v;
          assert g[1..][i] == g[i + 1];
        }
        if HasLoraName(g, v) {
          var i :| 0 <= i < |g| && IsLoraLoader(g[i].1) && g[i].1.node.inputs["lora_name"] == v;
          if i > 0 {
            assert g[1..][i - 1] == g[i];
            assert HasLoraName(g[1..], v);
          }
        }
      }
      r
  }

  /** `sorted(...)` and `",".join(...)` need every name to be a string. */
  predicate AllText(vs: seq<Value>)
  {
    forall v :: v in vs ==> v.VStr?
  }

  function Texts(vs: seq<Value>): (r: seq<string>)
    requires AllText(vs)
    ensures |r| == |vs| && forall i :: 0 <= i < |vs| ==> r[i] == vs[i].s
  {
    if vs == [] then [] else [vs[0].s] + Texts(vs[1..])
  }

  /** `sorted(set(loras))`. */
  function SortedLoraNames(g: Graph): (r: seq<string>)
    requires AllText(LoraLoaderNames(g))
    ensures StrOrder.StrictlySorted(r)
    ensures forall x :: x in r <==> VStr(x) in LoraLoaderNames(g)
  {
    SortedTexts(LoraLoaderNames(g))
  }

  function SortedTexts(vs: seq<Value>): (r: seq<string>)
    requires AllText(vs)
    ensures StrOrder.StrictlySorted(r)
    ensures forall x :: x in r <==> VStr(x) in vs
  {
    var r := StrOrder.SortedDistinct(Texts(vs));
    TextsMembers(vs);
    assert forall x :: x in r <==> x in StrOrder.Elements(r);
    r
  }

  lemma TextsMembers(vs: seq<Value>)
    requires AllText(vs)
    ensures forall x :: x in StrOrder.Elements(Texts(vs)) <==> VStr(x) in vs
  {
    var names := Texts(vs);
    forall x ensures x in StrOrder.Elements(names) <==> VStr(x) in vs {
      if VStr(x) in vs {
        var i :| 0 <= i < |vs| && vs[i] == VStr(x);
        assert names[i] == x;
      }
      if x in StrOrder.Elements(names) {
        var i :| 0 <= i < |names| && names[i] == x;
        assert vs[i] in vs && vs[i].s == x;
      }
    }
  }

  /** `get_lora_stack_signature`. */
  function LoraStackSignature(g: Graph): (r: string)
    requires AllText(LoraLoaderNames(g))
    ensures LoraLoaderNames(g) == [] ==> r == ""
  {
    Join(",", SortedLoraNames(g))
  }

  /** A permutation of the nodes leaves the LoRA name set unchanged. */
  lemma LoraNamesPermutation(g1: Graph, g2: Graph)
    requires multiset(g1) == multiset(g2)
    ensures forall v :: v in LoraLoaderNames(g1) <==> v in LoraLoaderNames(g2)
  {
    forall v | HasLoraName(g1, v) ensures HasLoraName(g2, v) {
      var i :| 0 <= i < |g1| && IsLoraLoader(g1[i].1) && g1[i].1.node.inputs["lora_name"] == v;
      var x := g1[i];
      assert x in multiset(g2);
      var j :| 0 <= j < |g2| && g2[j] == x;
    }
    forall v | HasLoraName(g2, v) ensures HasLoraName(g1, v) {
      var j :| 0 <= j < |g2| && IsLoraLoader(g2[j].1) && g2[j].1.node.inputs["lora_name"] == v;
      var x := g2[j];
      assert x in multiset(g1);
      var i :| 0 <= i < |g1| && g1[i] == x;
    }
  }

  /** Equal LoRA name sets give equal stack signatures, whatever the order
      and repetition of the loaders. */
  lemma LoraStackSignatureOrderIndependent(g1: Graph, g2: Graph)
    requires AllText(LoraLoaderNames(g1)) && AllText(LoraLoaderNames(g2))
    requires forall v :: v in LoraLoaderNames(g1) <==> v in LoraLoaderNames(g2)
    ensures LoraStackSignature(g1) == LoraStackSignature(g2)
  {
    var a, b := SortedLoraNames(g1), SortedLoraNames(g2);
    assert StrOrder.Elements(a) == StrOrder.Elements(b) by {
      forall x ensures x in StrOrder.Elements(a) <==> x in StrOrder.Elements(b) {
        assert x in StrOrder.Elements(a) <==> x in a;
        assert x in StrOrder.Elements(b) <==> x in b;
      }
    }
    StrOrder.SortedUnique(a, b);
  }

  /** `get_grouping_signature`: `"<base> | <l1,l2,...>"`, or the base alone
      (`"None"` standing for a missing one) when there is no LoRA name. The
      base comes from `extract_primary_checkpoint`, which needs every entry
      to be a dictionary. */
  function GroupingSignature(g: Graph): (r: Value)
    requires AllNodes(g) && AllText(LoraLoaderNames(g))
    ensures var base := Or(Analyzer.ExtractPrimaryCheckpoint(g), VStr("None"));
      if LoraStackSignature(g) == "" then r == base
      else r == VStr(Str(base) + " | " + LoraStackSignature(g))
    ensures Truthy(r)
  {
    var base := Or(Analyzer.ExtractPrimaryCheckpoint(g), VStr("None"));
    var loraPart := Join(",", SortedLoraNames(g));
    if loraPart != "" then VStr(Str(base) + " | " + loraPart) else base
  }

  /** The grouping signature depends only on the primary checkpoint and the
      set of LoRA names. */
  lemma GroupingSignatureOrderIndependent(g1: Graph, g2: Graph)
    requires AllNodes(g1) && AllText(LoraLoaderNames(g1))
    requires AllNodes(g2) && AllText(LoraLoaderNames(g2))
    requires Analyzer.ExtractPrimaryCheckpoint(g1) == Analyzer.ExtractPrimaryCheckpoint(g2)
    requires forall v :: v in LoraLoaderNames(g1) <==> v in LoraLoaderNames(g2)
    ensures GroupingSignature(g1) == GroupingSignature(g2)
  {
    LoraStackSignatureOrderIndependent(g1, g2);
  }

  /* ---------------------------------------------------------------------- */
  /* _resolve_text_node_reference                                            */
  /* ---------------------------------------------------------------------- */

  /** Why a resolution raised instead of returning: Python's recursion limit
      (a reference cycle), or a list used as a dictionary key. */
  datatype Failure = RecursionLimit | UnhashableId

  datatype Resolved = Found(text: string) | NoText | Failed(why: Failure)

  predicate Stripped(t: string)
  {
    t == [] || (!IsSpace(t[0]) && !IsSpace(t[|t| - 1]))
  }

  /** `str(item).strip()` for each truthy item of a list. */
  function StrippedItems(items: seq<Value>): seq<string>
  {
    if items == [] then []
    else (if Truthy(items[0]) then [Strip(Str(items[0]))] else []) + StrippedItems(items[1..])
  }

  /** The dictionary node that `id` names, if any. */
  function Target(g: Graph, id: Value): Option<Node>
  {
    if !id.VStr? then None
    else match Lookup(g, id.s)
      case Some(NodeEntry(n)) => Some(n)
      case _ => None
  }

  /** The node a `ShowText` node without `text_0` points at through a list
      `text` input: the branch where the resolver calls itself. */
  function Link(n: Node): Option<Value>
  {
    if !Contains(n.classType, "String Literal") && Contains(n.classType, "ShowText")
      && "text_0" !in n.inputs && "text" in n.inputs
      && n.inputs["text"].VList? && |n.inputs["text"].items| >= 1
    then Some(n.inputs["text"].items[0])
    else None
  }

  /** What the resolver returns for a node that is not a link. */
  function Direct(n: Node): (r: Resolved)
    requires Link(n).None?
    ensures r.Found? ==> Stripped(r.text)
    ensures !r.Failed?
    ensures (!Contains(n.classType, "String Literal") && !Contains(n.classType, "ShowText")
             && Contains(n.classType, "Text Load Line From File")) ==> r == NoText
  {
    var ct, inputs := n.classType, n.inputs;
    if Contains(ct, "String Literal") then
      if "string" in inputs then Found(Strip(Str(inputs["string"]))) else NoText
    else if Contains(ct, "ShowText") then
      if "text_0" in inputs then Found(Strip(Str(inputs["text_0"])))
      else if "text" in inputs then
        match inputs["text"]
        case VStr(s) => Found(Strip(s))
        case _ => NoText
      else NoText
    else if Contains(ct, "Text Load Line From File") then NoText
    else if "text" in inputs then
      match inputs["text"]
      case VStr(s) => Found(Strip(s))
      case VList(items) => Found(Strip(Join(" ", StrippedItems(items))))
      case _ => NoText
    else NoText
  }

  /** `_resolve_text_node_reference(metadata, node_id)`. Every call uses one
      unit of `fuel`; the source recursion has no bound, so `fuel` stands for
      the interpreter's recursion limit and running out of it is the
      `RecursionError` a reference cycle raises. */
  function Resolve(g: Graph, id: Value, fuel: nat): (r: Resolved)
    ensures r.Found? ==> Stripped(r.text)
    ensures fuel == 0 ==> r == Failed(RecursionLimit)
    ensures fuel > 0 && id.VList? ==> r == Failed(UnhashableId)
    ensures fuel > 0 && !id.VList? && Target(g, id).None? ==> r == NoText
    decreases fuel
  {
    if fuel == 0 then Failed(RecursionLimit)
    else if id.VList? then Failed(UnhashableId)
    else match Target(g, id)
      case None => NoText
      case Some(n) =>
        match Link(n)
        case Some(next) => Resolve(g, next, fuel - 1)
        case None => Direct(n)
  }

  /** More fuel never changes a result that did not run out of it. */
  lemma {:induction false} ResolveFuelMonotone(g: Graph, id: Value, f1: nat, f2: nat)
    requires f1 <= f2 && Resolve(g, id, f1) != Failed(RecursionLimit)
    ensures Resolve(g, id, f2) == Resolve(g, id, f1)
    decreases f1
  {
    if f1 > 0 && !id.VList? && Target(g, id).Some? && Link(Target(g, id).value).Some? {
      ResolveFuelMonotone(g, Link(Target(g, id).value).value, f1 - 1, f2 - 1);
    }
  }

  /** Two `ShowText` nodes that link to each other exhaust any recursion
      limit: the source raises `RecursionError`. */
  lemma {:induction false} ResolveCycle(g: Graph, a: string, b: string, fuel: nat)
    requires Target(g, VStr(a)).Some? && Link(Target(g, VStr(a)).value) == Some(VStr(b))
    requires Target(g, VStr(b)).Some? && Link(Target(g, VStr(b)).value) == Some(VStr(a))
    ensures Resolve(g, VStr(a), fuel) == Failed(RecursionLimit)
    ensures Resolve(g, VStr(b), fuel) == Failed(RecursionLimit)
    decreases fuel
  {
    if fuel > 0 {
      ResolveCycle(g, a, b, fuel - 1);
    }
  }

  /* ---------------------------------------------------------------------- */
  /* Prompt selection                                                       */
  /* ---------------------------------------------------------------------- */

  const PromptEncoders: seq<string> := ["CLIPTextEncode", "CLIPTextEncodeSDXL", "CLIPTextEncodeSDXLRefiner"]

  predicate IsPromptNode(n: Node)
  {
    n.classType in PromptEncoders && "text" in n.inputs
  }

  predicate IsNegativeTitle(n: Node)
  {
    Contains(Lower(n.title), "negative") || Contains(Lower(n.title), "neg")
  }

  predicate IsRefinerPrompt(n: Node)
  {
    Contains(Lower(n.classType), "refiner") || Contains(Lower(n.title), "refiner")
    || "ascore" in n.inputs || "width" in n.inputs
  }

  /** The text of a prompt node: a non-blank string directly, or the first
      element of a list followed as a node reference. */
  function PromptText(g: Graph, text: Value, fuel: nat): Resolved
  {
    if text.VStr? && Strip(text.s) != "" then Found(Strip(text.s))
    else if text.VList? && |text.items| >= 1 then Resolve(g, text.items[0], fuel)
    else NoText
  }

  /** `if extracted_text:` */
  predicate Usable(r: Resolved)
  {
    r.Found? && r.text != ""
  }

  predicate PositiveNode(e: Entry)
  {
    e.NodeEntry? && IsPromptNode(e.node) && !IsNegativeTitle(e.node)
  }

  datatype PositiveState = Collecting(base: Option<string>, refiner: Option<string>) | Aborted(why: Failure)

  /** The first pass of `_format_positive_prompt_section` over `nodes`; the
      resolver always looks references up in the whole workflow `g`. */
  function PositiveScan(g: Graph, nodes: Graph, fuel: nat): PositiveState
  {
    if nodes == [] then Collecting(None, None)
    else
      var s := PositiveScan(g, nodes[..|nodes| - 1], fuel);
      var e := nodes[|nodes| - 1].1;
      if s.Aborted? || !PositiveNode(e) then s
      else match PromptText(g, e.node.inputs["text"], fuel)
        case Failed(why) => Aborted(why)
        case NoText => s
        case Found(t) =>
          if t == "" then s
          else if IsRefinerPrompt(e.node) then s.(refiner := Some(t))
          else s.(base := Some(t))
  }

  /** The positive prompt: the base prompt, else the refiner prompt. */
  function PositivePrompt(g: Graph, fuel: nat): Resolved
  {
    match PositiveScan(g, g, fuel)
    case Aborted(why) => Failed(why)
    case Collecting(b, r) => if b.Some? then Found(b.value) else if r.Some? then Found(r.value) else NoText
  }

  /* Reference definition: each eligible node's text, with its kind. */

  function PositiveCandidates(g: Graph, nodes: Graph, fuel: nat): seq<(bool, Resolved)>
  {
    if nodes == [] then []
    else
      var e := nodes[|nodes| - 1].1;
      PositiveCandidates(g, nodes[..|nodes| - 1], fuel)
        + if PositiveNode(e) then [(IsRefinerPrompt(e.node), PromptText(g, e.node.inputs["text"], fuel))] else []
  }

  /** The text of the last usable candidate of the given kind. */
  function LastUsable(c: seq<(bool, Resolved)>, refiner: bool): Option<string>
  {
    if c == [] then None
    else
      var rest := LastUsable(c[1..], refiner);
      if rest.Some? then rest
      else if c[0].0 == refiner && Usable(c[0].1) then Some(c[0].1.text)
      else None
  }

  /** The first candidate whose resolution raised. */
  function FirstFailure(c: seq<(bool, Resolved)>): Option<Failure>
  {
    if c == [] then None
    else if c[0].1.Failed? then Some(c[0].1.why)
    else FirstFailure(c[1..])
  }

  lemma {:induction false} LastUsableSnoc(c: seq<(bool, Resolved)>, x: (bool, Resolved), refiner: bool)
    ensures LastUsable(c + [x], refiner) ==
      if x.0 == refiner && Usable(x.1) then Some(x.1.text) else LastUsable(c, refiner)
  {
    if c == [] {
      assert LastUsable([x][1..], refiner) == None;
    } else {
      assert (c + [x])[1..] == c[1..] + [x];
      LastUsableSnoc(c[1..], x, refiner);
    }
  }

  lemma {:induction false} FirstFailureSnoc(c: seq<(bool, Resolved)>, x: (bool, Resolved))
    ensures FirstFailure(c + [x]) ==
      if FirstFailure(c).Some? then FirstFailure(c) else if x.1.Failed? then Some(x.1.why) else None
  {
    if c != [] {
      assert (c + [x])[1..] == c[1..] + [x];
      FirstFailureSnoc(c[1..], x);
    }
  }

  lemma {:induction false} PositiveScanCharacterization(g: Graph, nodes: Graph, fuel: nat)
    ensures var c := PositiveCandidates(g, nodes, fuel);
      PositiveScan(g, nodes, fuel) ==
        if FirstFailure(c).Some? then Aborted(FirstFailure(c).value)
        else Collecting(LastUsable(c, false), LastUsable(c, true))
  {
    if nodes != [] {
      var p := nodes[..|nodes| - 1];
      var e := nodes[|nodes| - 1].1;
      PositiveScanCharacterization(g, p, fuel);
      var c0 := PositiveCandidates(g, p, fuel);
      if PositiveNode(e) {
        var x := (IsRefinerPrompt(e.node), PromptText(g, e.node.inputs["text"], fuel));
        assert PositiveCandidates(g, nodes, fuel) == c0 + [x];
        LastUsableSnoc(c0, x, false);
        LastUsableSnoc(c0, x, true);
        FirstFailureSnoc(c0, x);
      } else {
        assert PositiveCandidates(g, nodes, fuel) == c0;
      }
    }
  }

  /** The positive prompt is the last usable base prompt, else the last
      usable refiner prompt; a failed resolution on the way propagates. */
  lemma PositivePromptSpec(g: Graph, fuel: nat)
    ensures var c := PositiveCandidates(g, g, fuel);
      PositivePrompt(g, fuel) ==
        if FirstFailure(c).Some? then Failed(FirstFailure(c).value)
        else if LastUsable(c, false).Some? then Found(LastUsable(c, false).value)
        else if LastUsable(c, true).Some? then Found(LastUsable(c, true).value)
        else NoText
  {
    PositiveScanCharacterization(g, g, fuel);
  }

  predicate NegativeNode(e: Entry)
  {
    e.NodeEntry? && IsPromptNode(e.node) && IsNegativeTitle(e.node)
  }

  /** `_format_negative_prompt_section`: the loop stops at the first
      negative-titled prompt node with a usable text. */
  function NegativeScan(g: Graph, nodes: Graph, fuel: nat): (r: Resolved)
    ensures r.Found? ==> r.text != ""
  {
    if nodes == [] then NoText
    else
      var e := nodes[0].1;
      if NegativeNode(e) then
        var t := PromptText(g, e.node.inputs["text"], fuel);
        if t.Failed? || Usable(t) then t else NegativeScan(g, nodes[1..], fuel)
      else NegativeScan(g, nodes[1..], fuel)
  }

  function NegativePrompt(g: Graph, fuel: nat): Resolved
  {
    NegativeScan(g, g, fuel)
  }

  /** The first negative node with a usable text decides; the ones before it
      contribute nothing. */
  lemma {:induction false} NegativePromptFirst(g: Graph, nodes: Graph, fuel: nat, i: nat)
    requires i < |nodes| && NegativeNode(nodes[i].1)
    requires Usable(PromptText(g, nodes[i].1.node.inputs["text"], fuel))
    requires forall j :: 0 <= j < i && NegativeNode(nodes[j].1) ==>
      var t := PromptText(g, nodes[j].1.node.inputs["text"], fuel); !t.Failed? && !Usable(t)
    ensures NegativeScan(g, nodes, fuel) == PromptText(g, nodes[i].1.node.inputs["text"], fuel)
  {
    if i > 0 {
      forall j | 0 <= j < i - 1 && NegativeNode(nodes[1..][j].1)
        ensures var t := PromptText(g, nodes[1..][j].1.node.inputs["text"], fuel); !t.Failed? && !Usable(t)
      {
        assert nodes[1..][j] == nodes[j + 1];
      }
      NegativePromptFirst(g, nodes[1..], fuel, i - 1);
    }
  }

  /* ---------------------------------------------------------------------- */
  /* Sampling selection                                                     */
  /* ---------------------------------------------------------------------- */

  datatype SamplerFields = SamplerFields(steps: Value, cfg: Value, samplerName: Value, scheduler: Value)

  predicate IsSamplerNode(n: Node)
  {
    Contains(Lower(n.classType), "sampler")
  }

  /** `inputs.get('start_at_step', 0) > 0` compares numerically: the model
      requires an integer (or boolean) there. */
  predicate StartComparable(n: Node)
  {
    "start_at_step" in n.inputs ==> (n.inputs["start_at_step"].VInt? || n.inputs["start_at_step"].VBool?)
  }

  predicate ComparableSampler(e: Entry)
  {
    e.NodeEntry? && IsSamplerNode(e.node) && !Contains(Lower(e.node.title), "refiner") ==> StartComparable(e.node)
  }

  predicate SamplingDefined(g: Graph)
  {
    forall i :: 0 <= i < |g| ==> ComparableSampler(g[i].1)
  }

  function IsRefinerSampler(n: Node): bool
    requires Contains(Lower(n.title), "refiner") || StartComparable(n)
  {
    if Contains(Lower(n.title), "refiner") then true
    else if "start_at_step" in n.inputs then
      match n.inputs["start_at_step"]
      case VInt(i) => i > 0
      case VBool(b) => b
    else false
  }

  /** `if key in inputs: slot = inputs[key]` for the four sampler fields. */
  function TakeFields(f: SamplerFields, inputs: map<string, Value>): SamplerFields
  {
    SamplerFields(
      if "steps" in inputs then inputs["steps"] else f.steps,
      if "cfg" in inputs then inputs["cfg"] else f.cfg,
      if "sampler_name" in inputs then inputs["sampler_name"] else f.samplerName,
      if "scheduler" in inputs then inputs["scheduler"] else f.scheduler)
  }

  datatype SamplerSlots = SamplerSlots(base: SamplerFields, refiner: SamplerFields)

  function SamplingScan(g: Graph): SamplerSlots
    requires SamplingDefined(g)
  {
    if g == [] then SamplerSlots(SamplerFields(VNull, VNull, VNull, VNull), SamplerFields(VNull, VNull, VNull, VNull))
    else
      var s := SamplingScan(g[..|g| - 1]);
      var e := g[|g| - 1].1;
      assert ComparableSampler(e);
      if !e.NodeEntry? || !IsSamplerNode(e.node) then s
      else if IsRefinerSampler(e.node) then s.(refiner := TakeFields(s.refiner, e.node.inputs))
      else s.(base := TakeFields(s.base, e.node.inputs))
  }

  /** The value the last sampler node of one kind stores under `key`. */
  function LastField(g: Graph, key: string, refiner: bool): Option<Value>
    requires SamplingDefined(g)
  {
    if g == [] then None
    else
      assert SamplingDefined(g[1..]) by { forall i | 0 <= i < |g[1..]| ensures ComparableSampler(g[1..][i].1) { assert g[1..][i] == g[i + 1]; } }
      var rest := LastField(g[1..], key, refiner);
      var e := g[0].1;
      assert ComparableSampler(g[0].1);
      if rest.Some? then rest
      else if e.NodeEntry? && IsSamplerNode(e.node) && IsRefinerSampler(e.node) == refiner && key in e.node.inputs then
        Some(e.node.inputs[key])
      else None
  }

  function OrNull(o: Option<Value>): Value
  {
    if o.Some? then o.value else VNull
  }

  lemma {:induction false} LastFieldSnoc(g: Graph, key: string, refiner: bool)
    requires SamplingDefined(g) && g != []
    ensures var e := g[|g| - 1].1;
      LastField(g, key, refiner) ==
        if e.NodeEntry? && IsSamplerNode(e.node) && IsRefinerSampler(e.node) == refiner && key in e.node.inputs
        then Some(e.node.inputs[key]) else LastField(g[..|g| - 1], key, refiner)
  {
    if |g| > 1 {
      assert g[1..][..|g[1..]| - 1] == g[..|g| - 1][1..];
      assert g[1..][|g[1..]| - 1] == g[|g| - 1];
      LastFieldSnoc(g[1..], key, refiner);
    }
  }

  lemma {:induction false} SamplingScanCharacterization(g: Graph)
    requires SamplingDefined(g)
    ensures var s := SamplingScan(g);
      s.base == SamplerFields(OrNull(LastField(g, "steps", false)), OrNull(LastField(g, "cfg", false)),
                              OrNull(LastField(g, "sampler_name", false)), OrNull(LastField(g, "scheduler", false))) &&
      s.refiner == SamplerFields(OrNull(LastField(g, "steps", true)), OrNull(LastField(g, "cfg", true)),
                                 OrNull(LastField(g, "sampler_name", true)), OrNull(LastField(g, "scheduler", true)))
  {
    if g != [] {
      SamplingScanCharacterization(g[..|g| - 1]);
      LastFieldSnoc(g, "steps", false);
      LastFieldSnoc(g, "cfg", false);
      LastFieldSnoc(g, "sampler_name", false);
      LastFieldSnoc(g, "scheduler", false);
      LastFieldSnoc(g, "steps", true);
      LastFieldSnoc(g, "cfg", true);
      LastFieldSnoc(g, "sampler_name", true);
      LastFieldSnoc(g, "scheduler", true);
    }
  }

  /** `_format_sampling_section`: each field comes from the last base sampler
      that has it; `steps` and `cfg` fall back to the refiner value only when
      the base value is `None`, `sampler_name` and `scheduler` whenever it is
      falsy. */
  function SamplingSelection(g: Graph): (r: SamplerFields)
    requires SamplingDefined(g)
    ensures var bs, rs := OrNull(LastField(g, "steps", false)), OrNull(LastField(g, "steps", true));
      r.steps == if bs != VNull then bs else rs
    ensures var bc, rc := OrNull(LastField(g, "cfg", false)), OrNull(LastField(g, "cfg", true));
      r.cfg == if bc != VNull then bc else rc
    ensures r.samplerName == Or(OrNull(LastField(g, "sampler_name", false)), OrNull(LastField(g, "sampler_name", true)))
    ensures r.scheduler == Or(OrNull(LastField(g, "scheduler", false)), OrNull(LastField(g, "scheduler", true)))
  {
    SamplingScanCharacterization(g);
    var s := SamplingScan(g);
    SamplerFields(
      if s.base.steps != VNull then s.base.steps else s.refiner.steps,
      if s.base.cfg != VNull then s.base.cfg else s.refiner.cfg,
      Or(s.base.samplerName, s.refiner.samplerName),
      Or(s.base.scheduler, s.refiner.scheduler))
  }

  /* ---------------------------------------------------------------------- */
  /* Image parameters                                                       */
  /* ---------------------------------------------------------------------- */

  /** `width, height = map(int, resolution.split(' ')[0].split('x'))`;
      `None` where that raises `ValueError`. */
  function ParseResolution(s: string): Option<(int, int)>
  {
    var parts := Split(Split(s, ' ')[0], 'x');
    if |parts| != 2 then None
    else match (ParseInt(parts[0]), ParseInt(parts[1]))
      case (Some(w), Some(h)) => Some((w, h))
      case _ => None
  }

  /** The text before the first space of `"WxH (r)"` is `"WxH"`. */
  lemma ResolutionSizePart(w: nat, h: nat, ratio: string)
    ensures Split(NatToString(w) + "x" + NatToString(h) + " (" + ratio + ")", ' ')[0] == NatToString(w) + "x" + NatToString(h)
  {
    var ws, hs := NatToString(w), NatToString(h);
    NotInNatToString(w, ' ');
    NotInNatToString(h, ' ');
    var size := ws + ['x'] + hs;
    assert ' ' !in size;
    assert ws + "x" + hs + " (" + ratio + ")" == size + [' '] + ("(" + ratio + ")");
    SplitFirst(size, ' ', "(" + ratio + ")");
  }

  /** A picker resolution such as `"896x1152 (0.78)"` parses to its width and
      height. */
  lemma ResolutionRoundTrip(w: nat, h: nat, ratio: string)
    ensures ParseResolution(NatToString(w) + "x" + NatToString(h) + " (" + ratio + ")") == Some((w, h))
  {
    var ws, hs := NatToString(w), NatToString(h);
    ResolutionSizePart(w, h, ratio);
    NotInNatToString(w, 'x');
    NotInNatToString(h, 'x');
    assert ws + "x" + hs == ws + ['x'] + hs;
    SplitFirst(ws, 'x', hs);
    assert Split(hs, 'x') == [hs];
    ParseIntOfNat(w);
    ParseIntOfNat(h);
  }

  datatype ImageScan = Scanning(width: Value, height: Value) | Stopped(width: Value, height: Value) | Crashed

  /** One node of the image-parameter loop, while it is still scanning. */
  function ImageStep(w: Value, h: Value, n: Node): ImageScan
  {
    var ct, inputs := n.classType, n.inputs;
    if Contains(ct, "SDXLEmptyLatentSizePicker") then
      match (if "resolution" in inputs then inputs["resolution"] else VStr(""))
      case VStr(s) =>
        if 'x' in s then
          match ParseResolution(s)
          case Some((pw, ph)) => Stopped(VInt(pw), VInt(ph))
          case None => Scanning(w, h)
        else Scanning(w, h)
      case VList(items) => if VStr("x") in items then Crashed else Scanning(w, h)
      case _ => Crashed
    else if Contains(ct, "EmptyLatent") || Contains(ct, "LatentSize") then
      Scanning(if "width" in inputs then inputs["width"] else w, if "height" in inputs then inputs["height"] else h)
    else if ct == "CLIPTextEncodeSDXLRefiner" && "width" in inputs && "height" in inputs && !Truthy(w) && !Truthy(h) then
      Scanning(inputs["width"], inputs["height"])
    else Scanning(w, h)
  }

  /** The loop body: non-dictionary entries are skipped, and after a `break`
      (or an exception) nothing changes. */
  function ImageNext(s: ImageScan, e: Entry): (r: ImageScan)
    ensures !s.Scanning? ==> r == s
  {
    if !s.Scanning? || !e.NodeEntry? then s else ImageStep(s.width, s.height, e.node)
  }

  function ImageScanAll(g: Graph): ImageScan
  {
    if g == [] then Scanning(VNull, VNull)
    else ImageNext(ImageScanAll(g[..|g| - 1]), g[|g| - 1].1)
  }

  datatype Dimensions = Dims(width: Value, height: Value) | NoDims | DimsCrash

  /** `width / height` raises `TypeError` when either side is text or a
      list. */
  predicate Divisible(v: Value)
  {
    !v.VStr? && !v.VList?
  }

  /** The dimensions found are reported when both are truthy; the
      aspect-ratio division then needs both to be numbers. */
  function Reported(w: Value, h: Value): Dimensions
  {
    if !(Truthy(w) && Truthy(h)) then NoDims
    else if Divisible(w) && Divisible(h) then Dims(w, h)
    else DimsCrash
  }

  /** `_format_image_parameters`: the width and height reported, if both are
      truthy; a truthy linked or textual dimension makes the division raise. */
  function ImageParameters(g: Graph): (r: Dimensions)
    ensures r.Dims? ==> Truthy(r.width) && Truthy(r.height) && Divisible(r.width) && Divisible(r.height)
    ensures ImageScanAll(g).Crashed? ==> r.DimsCrash?
    ensures var s := ImageScanAll(g);
      !s.Crashed? && Truthy(s.width) && Truthy(s.height) && !(Divisible(s.width) && Divisible(s.height)) ==> r.DimsCrash?
    ensures var s := ImageScanAll(g);
      !s.Crashed? && Truthy(s.width) && Truthy(s.height) && Divisible(s.width) && Divisible(s.height) ==> r == Dims(s.width, s.height)
    ensures var s := ImageScanAll(g);
      !s.Crashed? && !(Truthy(s.width) && Truthy(s.height)) ==> r.NoDims?
  {
    match ImageScanAll(g)
    case Crashed => DimsCrash
    case Scanning(w, h) => Reported(w, h)
    case Stopped(w, h) => Reported(w, h)
  }

  lemma {:induction false} ImageScanStays(p: Graph, b: Graph)
    requires !ImageScanAll(p).Scanning?
    ensures ImageScanAll(p + b) == ImageScanAll(p)
    decreases |b|
  {
    if b == [] {
      assert p + b == p;
    } else {
      var b' := b[..|b| - 1];
      var g := p + b;
      assert g[..|g| - 1] == p + b';
      ImageScanStays(p, b');
      ImageScanUnfold(g);
    }
  }

  lemma ImageScanUnfold(g: Graph)
    requires g != []
    ensures ImageScanAll(g) == ImageNext(ImageScanAll(g[..|g| - 1]), g[|g| - 1].1)
  {
  }

  lemma ImageScanStopsAt(a: Graph, key: string, n: Node, b: Graph)
    requires ImageScanAll(a).Scanning?
    requires ImageStep(ImageScanAll(a).width, ImageScanAll(a).height, n).Stopped?
    ensures ImageScanAll(a + [(key, NodeEntry(n))] + b) == ImageStep(ImageScanAll(a).width, ImageScanAll(a).height, n)
  {
    var p := a + [(key, NodeEntry(n))];
    assert p[..|p| - 1] == a;
    ImageScanStays(p, b);
  }

  /** A size picker whose resolution reads `"WxH (r)"` stops the scan with
      that width and height. */
  predicate IsPicker(n: Node) { Contains(n.classType, "SDXLEmptyLatentSizePicker") }

  predicate IsLatentSize(n: Node)
  {
    !IsPicker(n) && (Contains(n.classType, "EmptyLatent") || Contains(n.classType, "LatentSize"))
  }

  /** A picker whose textual resolution does not parse (no `x`, a missing
      or non-numeric side, a third `x`) leaves the scan where it was. */
  lemma PickerParseErrorContinues(a: Graph, key: string, n: Node)
    requires ImageScanAll(a).Scanning?
    requires IsPicker(n) && "resolution" in n.inputs && n.inputs["resolution"].VStr?
    requires ParseResolution(n.inputs["resolution"].s).None?
    ensures ImageScanAll(a + [(key, NodeEntry(n))]) == ImageScanAll(a)
  {
    var p := a + [(key, NodeEntry(n))];
    assert p[..|p| - 1] == a;
  }

  /** Of two latent-size nodes that both give a width and a height, the
      later one wins. */
  lemma LatentLastWins(a: Graph, k1: string, n1: Node, k2: string, n2: Node)
    requires ImageScanAll(a).Scanning?
    requires IsLatentSize(n1) && IsLatentSize(n2)
    requires "width" in n2.inputs && "height" in n2.inputs
    ensures ImageScanAll(a + [(k1, NodeEntry(n1)), (k2, NodeEntry(n2))]) == Scanning(n2.inputs["width"], n2.inputs["height"])
  {
    var p := a + [(k1, NodeEntry(n1))];
    var q := a + [(k1, NodeEntry(n1)), (k2, NodeEntry(n2))];
    assert p[..|p| - 1] == a;
    assert q[..|q| - 1] == p;
  }

  /** A refiner encoder's width and height are taken only while neither
      dimension has been set to a truthy value. */
  lemma RefinerOnlyWhenUnset(a: Graph, key: string, n: Node)
    requires ImageScanAll(a).Scanning?
    requires n.classType == "CLIPTextEncodeSDXLRefiner" && "width" in n.inputs && "height" in n.inputs
    ensures var s := ImageScanAll(a);
      ImageScanAll(a + [(key, NodeEntry(n))]) ==
        if !Truthy(s.width) && !Truthy(s.height) then Scanning(n.inputs["width"], n.inputs["height"]) else s
  {
    var p := a + [(key, NodeEntry(n))];
    assert p[..|p| - 1] == a;
    RefinerIsNoLatent(n);
  }

  lemma RefinerIsNoLatent(n: Node)
    requires n.classType == "CLIPTextEncodeSDXLRefiner"
    ensures !IsPicker(n) && !Contains(n.classType, "EmptyLatent") && !Contains(n.classType, "LatentSize")
  {
    assert 'a' !in n.classType;
    NotContainsMissingChar(n.classType, "SDXLEmptyLatentSizePicker", 'a');
    NotContainsMissingChar(n.classType, "EmptyLatent", 'a');
    NotContainsMissingChar(n.classType, "LatentSize", 'a');
  }

  lemma PickerStep(w0: Value, h0: Value, n: Node, w: nat, h: nat, ratio: string)
    requires Contains(n.classType, "SDXLEmptyLatentSizePicker")
    requires "resolution" in n.inputs && n.inputs["resolution"] == VStr(NatToString(w) + "x" + NatToString(h) + " (" + ratio + ")")
    ensures ImageStep(w0, h0, n) == Stopped(VInt(w), VInt(h))
  {
    var s := NatToString(w) + "x" + NatToString(h) + " (" + ratio + ")";
    assert s[|NatToString(w)|] == 'x';
    ResolutionRoundTrip(w, h, ratio);
  }

  /** Such a picker supplies the reported dimensions, whatever nodes
      follow it. */
  lemma PickerDecides(a: Graph, key: string, n: Node, b: Graph, w: nat, h: nat, ratio: string)
    requires ImageScanAll(a).Scanning?
    requires Contains(n.classType, "SDXLEmptyLatentSizePicker")
    requires "resolution" in n.inputs && n.inputs["resolution"] == VStr(NatToString(w) + "x" + NatToString(h) + " (" + ratio + ")")
    requires w > 0 && h > 0
    ensures ImageParameters(a + [(key, NodeEntry(n))] + b) == Dims(VInt(w), VInt(h))
  {
    PickerStep(ImageScanAll(a).width, ImageScanAll(a).height, n, w, h, ratio);
    ImageScanStopsAt(a, key, n, b);
  }

  /* ---------------------------------------------------------------------- */
  /* Upscaling                                                              */
  /* ---------------------------------------------------------------------- */

  predicate IsUpscaleLoader(e: Entry)
  {
    e.NodeEntry? && e.node.classType == "UpscaleModelLoader" && "model_name" in e.node.inputs
  }

  /** The first pass: loader node id to model name. */
  function UpscaleModels(g: Graph): map<string, Value>
  {
    if g == [] then map[]
    else
      var m := UpscaleModels(g[..|g| - 1]);
      var (key, e) := g[|g| - 1];
      if IsUpscaleLoader(e) then m[key := e.node.inputs["model_name"]] else m
  }

  lemma {:induction false} UpscaleModelsAt(g: Graph, i: nat)
    requires DistinctKeys(g) && i < |g| && IsUpscaleLoader(g[i].1)
    ensures g[i].0 in UpscaleModels(g) && UpscaleModels(g)[g[i].0] == g[i].1.node.inputs["model_name"]
  {
    if i < |g| - 1 {
      var p := g[..|g| - 1];
      assert p[i] == g[i];
      assert DistinctKeys(p) by {
        forall x, y | 0 <= x < y < |p| ensures p[x].0 != p[y].0 { assert p[x] == g[x] && p[y] == g[y]; }
      }
      UpscaleModelsAt(p, i);
      assert g[i].0 != g[|g| - 1].0;
    }
  }

  datatype Upscale = Upscale(upscaleMethod: string, model: Value, factor: Value) | NoUpscale | UpscaleCrash

  predicate IsUpscaleNode(e: Entry)
  {
    e.NodeEntry? && (e.node.classType == "ImageUpscaleWithModel" || e.node.classType == "UltimateSDUpscale")
  }

  /** The loader model an `upscale_model` link names, if any. */
  function LinkedModel(models: map<string, Value>, inputs: map<string, Value>): Option<Value>
  {
    if "upscale_model" in inputs && inputs["upscale_model"].VList? && |inputs["upscale_model"].items| >= 1 then
      var id := inputs["upscale_model"].items[0];
      if id.VList? then None
      else if id.VStr? && id.s in models then Some(models[id.s])
      else Some(VNull)
    else Some(VNull)
  }

  /** The second pass: the first upscaling node decides. */
  function FindUpscale(nodes: Graph, models: map<string, Value>): (r: Upscale)
    ensures r.Upscale? ==> exists i :: 0 <= i < |nodes| && IsUpscaleNode(nodes[i].1) && nodes[i].1.node.classType == r.upscaleMethod
    ensures r.NoUpscale? <==> forall i :: 0 <= i < |nodes| ==> !IsUpscaleNode(nodes[i].1)
  {
    if nodes == [] then NoUpscale
    else
      var e := nodes[0].1;
      if IsUpscaleNode(e) then
        var inputs := e.node.inputs;
        match LinkedModel(models, inputs)
        case None => UpscaleCrash
        case Some(m) =>
          Upscale(e.node.classType, m,
            if e.node.classType == "UltimateSDUpscale" && "upscale_by" in inputs then inputs["upscale_by"] else VNull)
      else
        var r := FindUpscale(nodes[1..], models);
        assert forall i :: 0 <= i < |nodes[1..]| ==> nodes[1..][i] == nodes[i + 1];
        assert forall i :: 1 <= i < |nodes| ==> nodes[i] == nodes[1..][i - 1];
        r
  }

  /** `_format_upscaling_section`: a section exists exactly when some node
      upscales. */
  function UpscalingSection(g: Graph): (r: Upscale)
    ensures r.NoUpscale? <==> forall i :: 0 <= i < |g| ==> !IsUpscaleNode(g[i].1)
  {
    FindUpscale(g, UpscaleModels(g))
  }

  /** When the first upscaling node links to a loader, the section names
      that loader's model. */
  lemma UpscaleUsesLinkedLoader(g: Graph, i: nat, k: nat)
    requires DistinctKeys(g) && i < |g| && IsUpscaleNode(g[i].1)
    requires forall j :: 0 <= j < i ==> !IsUpscaleNode(g[j].1)
    requires k < |g| && IsUpscaleLoader(g[k].1)
    requires var inputs := g[i].1.node.inputs;
      "upscale_model" in inputs && inputs["upscale_model"].VList? && |inputs["upscale_model"].items| >= 1
      && inputs["upscale_model"].items[0] == VStr(g[k].0)
    ensures UpscalingSection(g).Upscale?
    ensures UpscalingSection(g).model == g[k].1.node.inputs["model_name"]
    ensures UpscalingSection(g).upscaleMethod == g[i].1.node.classType
  {
    UpscaleModelsAt(g, k);
    FirstUpscale(g, UpscaleModels(g), i);
  }

  lemma {:induction false} FirstUpscale(nodes: Graph, models: map<string, Value>, i: nat)
    requires i < |nodes| && IsUpscaleNode(nodes[i].1)
    requires forall j :: 0 <= j < i ==> !IsUpscaleNode(nodes[j].1)
    ensures FindUpscale(nodes, models) == FindUpscale(nodes[i..], models)
  {
    if i > 0 {
      assert nodes[1..][i - 1..] == nodes[i..];
      forall j | 0 <= j < i - 1 ensures !IsUpscaleNode(nodes[1..][j].1) { assert nodes[1..][j] == nodes[j + 1]; }
      FirstUpscale(nodes[1..], models, i - 1);
    }
  }

  /* ---------------------------------------------------------------------- */
  /* Models and LoRAs sections                                              */
  /* ---------------------------------------------------------------------- */

  /** The file-name part of a model path: after the last `\` when there is
      one, else after the last `/`. */
  function DisplayName(path: string): (r: string)
    ensures EndsWith(path, r)
    ensures '\\' !in r
    ensures '\\' !in path ==> '/' !in r
    ensures |r| < |path| ==> path[|path| - |r| - 1] == (if '\\' in path then '\\' else '/')
  {
    if '\\' in path then
      SplitLastSuffix(path, '\\');
      SplitLastAfterSeparator(path, '\\');
      Last(Split(path, '\\'))
    else
      SplitLastSuffix(path, '/');
      SplitLastAfterSeparator(path, '/');
      var r := Last(Split(path, '/'));
      assert r == path[|path| - |r|..];
      assert forall i :: 0 <= i < |r| ==> r[i] == path[|path| - |r| + i];
      r
  }

  predicate IsVaeLoader(e: Entry)
  {
    e.NodeEntry? && e.node.classType == "VAELoader" && "vae_name" in e.node.inputs
  }

  /** The `vae_name` of the last `VAELoader`. */
  function LastVae(g: Graph): Value
  {
    if g == [] then VNull
    else if IsVaeLoader(g[|g| - 1].1) then g[|g| - 1].1.node.inputs["vae_name"]
    else LastVae(g[..|g| - 1])
  }

  datatype ModelNames = ModelNames(base: Option<string>, vae: Option<string>)

  /** The `.split` calls need a string wherever the value is truthy. */
  predicate TextOrFalsy(v: Value)
  {
    Truthy(v) ==> v.VStr?
  }

  /** `_format_models_section`: the display names of the primary checkpoint
      and of the last VAE, each shown only when truthy. */
  function ModelsSection(g: Graph): (r: ModelNames)
    requires AllNodes(g)
    requires TextOrFalsy(Analyzer.ExtractPrimaryCheckpoint(g)) && TextOrFalsy(LastVae(g))
    ensures r.base.Some? <==> Truthy(Analyzer.ExtractPrimaryCheckpoint(g))
    ensures r.base.Some? ==> EndsWith(Analyzer.ExtractPrimaryCheckpoint(g).s, r.base.value) && '\\' !in r.base.value
    ensures r.vae.Some? <==> Truthy(LastVae(g))
    ensures r.vae.Some? ==> EndsWith(LastVae(g).s, r.vae.value) && '\\' !in r.vae.value
  {
    var base := Analyzer.ExtractPrimaryCheckpoint(g);
    var vae := LastVae(g);
    ModelNames(
      if Truthy(base) then Some(DisplayName(base.s)) else None,
      if Truthy(vae) then Some(DisplayName(vae.s)) else None)
  }

  function LoraLine(n: nat, name: string): string
  {
    "LoRA " + NatToString(n) + ": " + DisplayName(name)
  }

  /** The number of a LoRA line runs from index 5 up to its first `:`. */
  lemma LoraLineColon(n: nat, name: string)
    ensures var d, s := NatToString(n), LoraLine(n, name)[5..];
      ':' in s && IndexOf(s, ':') == |d| && s[..|d|] == d
  {
    var d, rest := NatToString(n), ": " + DisplayName(name);
    LoraLineAfterPrefix(n, name);
    NotInNatToString(n, ':');
    ColonAfter(d, rest);
  }

  lemma LoraLineAfterPrefix(n: nat, name: string)
    ensures LoraLine(n, name)[5..] == NatToString(n) + (": " + DisplayName(name))
  {
    assert LoraLine(n, name) == "LoRA " + (NatToString(n) + (": " + DisplayName(name)));
  }

  lemma ColonAfter(d: string, rest: string)
    requires ':' !in d && rest != [] && rest[0] == ':'
    ensures ':' in d + rest && IndexOf(d + rest, ':') == |d| && (d + rest)[..|d|] == d
  {
    var s := d + rest;
    assert s[..|d|] == d && s[|d|] == ':';
    FirstIndexOf(s, ':', |d|);
  }

  lemma LoraLinesDistinct(names: seq<string>)
    ensures forall i, j :: 0 <= i < j < |names| ==> LoraLine(i + 1, names[i]) != LoraLine(j + 1, names[j])
  {
    forall i, j | 0 <= i < j < |names| ensures LoraLine(i + 1, names[i]) != LoraLine(j + 1, names[j]) {
      if LoraLine(i + 1, names[i]) == LoraLine(j + 1, names[j]) {
        LoraLineNumber(i + 1, j + 1, names[i], names[j]);
      }
    }
  }

  /** Two LoRA lines with different numbers differ, whatever the names. */
  lemma {:induction false} LoraLineNumber(a: nat, b: nat, x: string, y: string)
    requires LoraLine(a, x) == LoraLine(b, y)
    ensures a == b
  {
    LoraLineColon(a, x);
    LoraLineColon(b, y);
    assert NatToString(a) == NatToString(b);
    ParseIntOfNat(a);
    ParseIntOfNat(b);
  }

  /** Numbered display lines for the given LoRA names; the numbers make
      every line different, even for repeated names. */
  function NumberedLines(names: seq<string>): (r: seq<string>)
    ensures |r| == |names|
    ensures forall i :: 0 <= i < |names| ==> r[i] == LoraLine(i + 1, names[i])
    ensures forall i, j :: 0 <= i < j < |r| ==> r[i] != r[j]
  {
    LoraLinesDistinct(names);
    seq(|names|, i requires 0 <= i < |names| => LoraLine(i + 1, names[i]))
  }

  /** `_format_loras_section` without the strength suffix: the loaders in
      node order, numbered from 1, or a single "No LoRAs used" line. */
  function LorasSection(g: Graph): (r: seq<string>)
    requires AllText(LoraLoaderNames(g))
    ensures var names := LoraLoaderNames(g);
      if names == [] then r == ["No LoRAs used"]
      else |r| == |names| && forall i :: 0 <= i < |r| ==> r[i] == LoraLine(i + 1, names[i].s)
  {
    var names := Texts(LoraLoaderNames(g));
    if names == [] then ["No LoRAs used"] else NumberedLines(names)
  }
}
