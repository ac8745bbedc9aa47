/** `MetadataAnalyzer` of core/metadata_engine.py: side-effect-free scans over
    the nodes of a decoded workflow, in dictionary order. */
module Analyzer {
  import opened Text
  import opened Workflow

  /* ---------------------------------------------------------------------- */
  /* Collecting field values: extract_checkpoints and extract_loras          */
  /* ---------------------------------------------------------------------- */

  const CheckpointFields: seq<string> := ["ckpt_name", "model_name", "checkpoint", "base_model"]
  const LoraFields: seq<string> := ["lora_name"]

  /** The values one node's `inputs` contributes, in the order of `fields`. */
  function FieldValues(inputs: map<string, Value>, fields: seq<string>): (r: seq<Value>)
    ensures forall v :: v in r <==> exists f :: f in fields && f in inputs && inputs[f] == v
  {
    if fields == [] then []
    else
      var rest := FieldValues(inputs, fields[1..]);
      assert forall f :: f in fields[1..] ==> f in fields;
      assert forall f :: f in fields ==> f == fields[0] || f in fields[1..];
      (if fields[0] in inputs then [inputs[fields[0]]] else []) + rest
  }

  /** The list the loop builds by appending, before duplicates are removed. */
  function Collected(g: Graph, fields: seq<string>): seq<Value>
    requires AllNodes(g)
  {
    if g == [] then [] else FieldValues(g[0].1.node.inputs, fields) + Collected(g[1..], fields)
  }

  /** The values stored under one of `fields` anywhere in the workflow. */
  function FieldSet(g: Graph, fields: seq<string>): set<Value>
  {
    set i, f | 0 <= i < |g| && g[i].1.NodeEntry? && f in fields && f in g[i].1.node.inputs :: g[i].1.node.inputs[f]
  }

  predicate NoDuplicates<T(==)>(s: seq<T>)
  {
    forall i, j :: 0 <= i < j < |s| ==> s[i] != s[j]
  }

  function SeqSet<T>(s: seq<T>): set<T>
  {
    set x | x in s
  }

  /** `set(xs)` turned back into a list; the first occurrence of each value is
      kept (the order of a Python set is not part of the model). */
  function Dedup(xs: seq<Value>): (r: seq<Value>)
    ensures NoDuplicates(r)
    ensures SeqSet(r) == SeqSet(xs)
  {
    if xs == [] then []
    else
      var d := Dedup(xs[..|xs| - 1]);
      var x := xs[|xs| - 1];
      assert xs == xs[..|xs| - 1] + [x];
      assert SeqSet(xs) == SeqSet(xs[..|xs| - 1]) + {x};
      if x in d then d
      else
        assert SeqSet(d + [x]) == SeqSet(d) + {x};
        assert forall i :: 0 <= i < |d| ==> d[i] in d;
        d + [x]
  }

  /** Python sets need hashable elements: a list value raises `TypeError`. */
  predicate Hashable(xs: seq<Value>)
  {
    forall v :: v in xs ==> !v.VList?
  }

  lemma {:induction false} CollectedElements(g: Graph, fields: seq<string>)
    requires AllNodes(g)
    ensures SeqSet(Collected(g, fields)) == FieldSet(g, fields)
  {
    if g != [] {
      CollectedElements(g[1..], fields);
      var head := FieldValues(g[0].1.node.inputs, fields);
      forall v | v in FieldSet(g, fields) ensures v in SeqSet(Collected(g, fields)) {
        var i, f :| 0 <= i < |g| && g[i].1.NodeEntry? && f in fields && f in g[i].1.node.inputs && g[i].1.node.inputs[f] == v;
        if i == 0 {
          assert v in head;
        } else {
          assert g[1..][i - 1] == g[i];
          assert v in FieldSet(g[1..], fields);
        }
      }
      forall v | v in SeqSet(Collected(g, fields)) ensures v in FieldSet(g, fields) {
        if v in head {
          var f :| f in fields && f in g[0].1.node.inputs && g[0].1.node.inputs[f] == v;
        } else {
          assert v in FieldSet(g[1..], fields);
          var i, f :| 0 <= i < |g[1..]| && g[1..][i].1.NodeEntry? && f in fields && f in g[1..][i].1.node.inputs && g[1..][i].1.node.inputs[f] == v;
          assert g[1..][i] == g[i + 1];
        }
      }
    }
  }

  /** `extract_checkpoints`: each checkpoint value once, and exactly the values
      of `ckpt_name`, `model_name`, `checkpoint` and `base_model` fields. */
  function ExtractCheckpoints(g: Graph): (r: seq<Value>)
    requires AllNodes(g) && Hashable(Collected(g, CheckpointFields))
    ensures NoDuplicates(r)
    ensures SeqSet(r) == FieldSet(g, CheckpointFields)
    ensures g == [] ==> r == []
  {
    CollectedElements(g, CheckpointFields);
    Dedup(Collected(g, CheckpointFields))
  }

  /** `extract_loras`: each `lora_name` value once, and no other value. */
  function ExtractLoras(g: Graph): (r: seq<Value>)
    requires AllNodes(g) && Hashable(Collected(g, LoraFields))
    ensures NoDuplicates(r)
    ensures SeqSet(r) == FieldSet(g, LoraFields)
    ensures g == [] ==> r == []
  {
    CollectedElements(g, LoraFields);
    Dedup(Collected(g, LoraFields))
  }

  /* ---------------------------------------------------------------------- */
  /* extract_primary_checkpoint                                             */
  /* ---------------------------------------------------------------------- */

  /** The two running slots of the loop. */
  datatype Slots = Slots(base: Value, refiner: Value)

  /** A checkpoint loader counts as a refiner when its class or its node KEY
      (not `_meta.title`) mentions "refiner", or it has step-range or refiner
      inputs. */
  predicate IsRefinerNode(key: string, n: Node)
  {
    Contains(Lower(n.classType), "refiner") || Contains(Lower(key), "refiner")
    || "start_at_step" in n.inputs || "end_at_step" in n.inputs
    || "refiner_ckpt" in n.inputs || "refiner_model" in n.inputs
  }

  predicate HasOverride(n: Node)
  {
    "base_ckpt" in n.inputs && Truthy(n.inputs["base_ckpt"])
  }

  /** One iteration of the loop body. */
  function Step(s: Slots, key: string, n: Node): Slots
  {
    var inputs := n.inputs;
    var base1 := if HasOverride(n) then inputs["base_ckpt"] else s.base;
    var base2 := if "ckpt_name" in inputs && !IsRefinerNode(key, n) then Or(base1, inputs["ckpt_name"]) else base1;
    var ref1 := if "ckpt_name" in inputs && IsRefinerNode(key, n) then Or(s.refiner, inputs["ckpt_name"]) else s.refiner;
    var ref2 := if "refiner_ckpt" in inputs then Or(ref1, inputs["refiner_ckpt"]) else ref1;
    var ref3 := if "refiner_model" in inputs then Or(ref2, inputs["refiner_model"]) else ref2;
    Slots(base2, ref3)
  }

  /** The slots after the loop has visited every node of `g`. */
  function Scan(g: Graph): Slots
    requires AllNodes(g)
  {
    if g == [] then Slots(VNull, VNull)
    else Step(Scan(g[..|g| - 1]), g[|g| - 1].0, g[|g| - 1].1.node)
  }

  /** `extract_primary_checkpoint`: `base_ckpt or refiner_ckpt`. */
  function ExtractPrimaryCheckpoint(g: Graph): (r: Value)
    requires AllNodes(g)
    ensures g == [] ==> r == VNull
    ensures Truthy(Scan(g).base) ==> r == Scan(g).base
  {
    var s := Scan(g);
    Or(s.base, s.refiner)
  }

  /* Reference definitions: the candidates of each slot, in node order. */

  /** Truthy `base_ckpt` overrides, in node order. */
  function Overrides(g: Graph): (r: seq<Value>)
    requires AllNodes(g)
    ensures forall v :: v in r ==> Truthy(v)
  {
    if g == [] then []
    else
      var n := g[|g| - 1].1.node;
      Overrides(g[..|g| - 1]) + if HasOverride(n) then [n.inputs["base_ckpt"]] else []
  }

  /** `ckpt_name` values of nodes that are not refiner loaders. */
  function BaseCandidates(g: Graph): seq<Value>
    requires AllNodes(g)
  {
    if g == [] then []
    else
      var (key, n) := (g[|g| - 1].0, g[|g| - 1].1.node);
      BaseCandidates(g[..|g| - 1]) +
        if "ckpt_name" in n.inputs && !IsRefinerNode(key, n) then [n.inputs["ckpt_name"]] else []
  }

  /** Refiner `ckpt_name` values and `refiner_ckpt`/`refiner_model` fields. */
  function RefinerCandidates(g: Graph): seq<Value>
    requires AllNodes(g)
  {
    if g == [] then []
    else
      var (key, n) := (g[|g| - 1].0, g[|g| - 1].1.node);
      RefinerCandidates(g[..|g| - 1])
        + (if "ckpt_name" in n.inputs && IsRefinerNode(key, n) then [n.inputs["ckpt_name"]] else [])
        + (if "refiner_ckpt" in n.inputs then [n.inputs["refiner_ckpt"]] else [])
        + (if "refiner_model" in n.inputs then [n.inputs["refiner_model"]] else [])
  }

  /** A slot filled by "assign when currently falsy": the first truthy
      candidate, or else the last candidate, or `None` when there is none. */
  function Settle(c: seq<Value>): Value
  {
    if c == [] then VNull
    else if Truthy(c[0]) || |c| == 1 then c[0]
    else Settle(c[1..])
  }

  lemma {:induction false} SettleSnoc(c: seq<Value>, x: Value)
    ensures Settle(c + [x]) == Or(Settle(c), x)
  {
    if c != [] && !Truthy(c[0]) && |c| > 1 {
      assert (c + [x])[1..] == c[1..] + [x];
      SettleSnoc(c[1..], x);
    } else if c != [] && !Truthy(c[0]) {
      assert (c + [x])[1..] == [x];
    }
  }

  /** Settle picks the first truthy candidate. */
  lemma {:induction false} SettleFirstTruthy(c: seq<Value>, k: nat)
    requires k < |c| && Truthy(c[k])
    requires forall j :: 0 <= j < k ==> !Truthy(c[j])
    ensures Settle(c) == c[k]
  {
    if k > 0 {
      SettleFirstTruthy(c[1..], k - 1);
    }
  }

  /** With no truthy candidate the slot stays falsy. */
  lemma {:induction false} SettleAllFalsy(c: seq<Value>)
    requires forall j :: 0 <= j < |c| ==> !Truthy(c[j])
    ensures !Truthy(Settle(c))
  {
    if |c| > 1 {
      SettleAllFalsy(c[1..]);
    }
  }

  /** The loop's slots are the settled candidate lists, except that the last
      override replaces the base slot. */
  lemma ScanCharacterization(g: Graph)
    requires AllNodes(g)
    ensures Scan(g).base == if Overrides(g) != [] then Overrides(g)[|Overrides(g)| - 1] else Settle(BaseCandidates(g))
    ensures Scan(g).refiner == Settle(RefinerCandidates(g))
  {
    ScanRefiner(g);
    ScanBase(g);
  }

  lemma {:induction false} ScanRefiner(g: Graph)
    requires AllNodes(g)
    ensures Scan(g).refiner == Settle(RefinerCandidates(g))
  {
    if g != [] {
      var p := g[..|g| - 1];
      var (key, n) := (g[|g| - 1].0, g[|g| - 1].1.node);
      ScanRefiner(p);
      var inputs := n.inputs;
      var s := Scan(p);
      assert Scan(g) == Step(s, key, n);
      // One `Or` per candidate this node contributes.
      var c0 := RefinerCandidates(p);
      var a := if "ckpt_name" in inputs && IsRefinerNode(key, n) then [inputs["ckpt_name"]] else [];
      var b := if "refiner_ckpt" in inputs then [inputs["refiner_ckpt"]] else [];
      var d := if "refiner_model" in inputs then [inputs["refiner_model"]] else [];
      assert RefinerCandidates(g) == c0 + a + b + d;
      var ref1 := if a != [] then Or(s.refiner, a[0]) else s.refiner;
      var ref2 := if b != [] then Or(ref1, b[0]) else ref1;
      var ref3 := if d != [] then Or(ref2, d[0]) else ref2;
      assert Scan(g).refiner == ref3;
      if a != [] { SettleSnoc(c0, a[0]); } else { assert c0 + a == c0; }
      assert ref1 == Settle(c0 + a);
      if b != [] { SettleSnoc(c0 + a, b[0]); } else { assert c0 + a + b == c0 + a; }
      assert ref2 == Settle(c0 + a + b);
      if d != [] { SettleSnoc(c0 + a + b, d[0]); } else { assert c0 + a + b + d == c0 + a + b; }
    }
  }

  lemma {:induction false} ScanBase(g: Graph)
    requires AllNodes(g)
    ensures Scan(g).base == if Overrides(g) != [] then Overrides(g)[|Overrides(g)| - 1] else Settle(BaseCandidates(g))
  {
    if g != [] {
      var p := g[..|g| - 1];
      var (key, n) := (g[|g| - 1].0, g[|g| - 1].1.node);
      ScanBase(p);
      var inputs := n.inputs;
      assert Scan(g) == Step(Scan(p), key, n);
      var o := if HasOverride(n) then [inputs["base_ckpt"]] else [];
      assert Overrides(g) == Overrides(p) + o;
      var e := if "ckpt_name" in inputs && !IsRefinerNode(key, n) then [inputs["ckpt_name"]] else [];
      assert BaseCandidates(g) == BaseCandidates(p) + e;
      if e != [] {
        SettleSnoc(BaseCandidates(p), e[0]);
      } else {
        assert BaseCandidates(p) + e == BaseCandidates(p);
      }
      if o == [] {
        assert Overrides(p) + o == Overrides(p);
      }
      if Overrides(p) != [] {
        assert Overrides(p)[|Overrides(p)| - 1] in Overrides(p);
      }
    }
  }

  /** The primary checkpoint, stated on the candidate lists alone. */
  lemma PrimaryCheckpointSpec(g: Graph)
    requires AllNodes(g)
    ensures ExtractPrimaryCheckpoint(g) ==
      Or(if Overrides(g) != [] then Overrides(g)[|Overrides(g)| - 1] else Settle(BaseCandidates(g)),
         Settle(RefinerCandidates(g)))
  {
    ScanCharacterization(g);
  }

  lemma {:induction false} OverridesLast(g: Graph, i: nat)
    requires AllNodes(g) && i < |g| && HasOverride(g[i].1.node)
    requires forall j :: i < j < |g| ==> !HasOverride(g[j].1.node)
    ensures Overrides(g) != [] && Overrides(g)[|Overrides(g)| - 1] == g[i].1.node.inputs["base_ckpt"]
  {
    if i < |g| - 1 {
      var p := g[..|g| - 1];
      assert p[i] == g[i];
      forall j | i < j < |p| ensures !HasOverride(p[j].1.node) { assert p[j] == g[j]; }
      OverridesLast(p, i);
    }
  }

  /** A truthy `base_ckpt` wins outright: the last node that has one decides. */
  lemma PrimaryOverride(g: Graph, i: nat)
    requires AllNodes(g) && i < |g| && HasOverride(g[i].1.node)
    requires forall j :: i < j < |g| ==> !HasOverride(g[j].1.node)
    ensures ExtractPrimaryCheckpoint(g) == g[i].1.node.inputs["base_ckpt"]
  {
    OverridesLast(g, i);
    ScanCharacterization(g);
  }

  /** Without an override, the first truthy `ckpt_name` of a non-refiner
      loader is the result. */
  lemma PrimaryFromBase(g: Graph, k: nat)
    requires AllNodes(g) && Overrides(g) == []
    requires k < |BaseCandidates(g)| && Truthy(BaseCandidates(g)[k])
    requires forall j :: 0 <= j < k ==> !Truthy(BaseCandidates(g)[j])
    ensures ExtractPrimaryCheckpoint(g) == BaseCandidates(g)[k]
  {
    ScanCharacterization(g);
    SettleFirstTruthy(BaseCandidates(g), k);
  }

  /** The refiner slot is used only when no base checkpoint was found; it is
      first-found-wins over refiner `ckpt_name`s and refiner fields. */
  lemma PrimaryFromRefiner(g: Graph, k: nat)
    requires AllNodes(g) && Overrides(g) == []
    requires forall j :: 0 <= j < |BaseCandidates(g)| ==> !Truthy(BaseCandidates(g)[j])
    requires k < |RefinerCandidates(g)| && Truthy(RefinerCandidates(g)[k])
    requires forall j :: 0 <= j < k ==> !Truthy(RefinerCandidates(g)[j])
    ensures ExtractPrimaryCheckpoint(g) == RefinerCandidates(g)[k]
  {
    ScanCharacterization(g);
    SettleAllFalsy(BaseCandidates(g));
    SettleFirstTruthy(RefinerCandidates(g), k);
  }

  /** With no truthy candidate at all the result is falsy (`None` or an empty
      name), so callers treat the checkpoint as unknown. */
  lemma PrimaryNone(g: Graph)
    requires AllNodes(g) && Overrides(g) == []
    requires forall j :: 0 <= j < |BaseCandidates(g)| ==> !Truthy(BaseCandidates(g)[j])
    requires forall j :: 0 <= j < |RefinerCandidates(g)| ==> !Truthy(RefinerCandidates(g)[j])
    ensures !Truthy(ExtractPrimaryCheckpoint(g))
  {
    ScanCharacterization(g);
    SettleAllFalsy(BaseCandidates(g));
    SettleAllFalsy(RefinerCandidates(g));
  }

  /* ---------------------------------------------------------------------- */
  /* extract_sampling_params                                                */
  /* ---------------------------------------------------------------------- */

  const SamplingKeys: seq<string> := ["steps", "cfg", "sampler_name", "scheduler", "denoise"]

  predicate IsKSampler(n: Node)
  {
    n.classType == "KSampler" || n.classType == "KSamplerAdvanced"
  }

  /** The loop stops at the first sampler, so only the entries before it (and
      the sampler itself) must be dictionaries. */
  predicate SamplerScanDefined(g: Graph)
  {
    g == [] || (IsNode(g[0].1) && (IsKSampler(g[0].1.node) || SamplerScanDefined(g[1..])))
  }

  function FirstSampler(g: Graph): (r: Option<Node>)
    requires SamplerScanDefined(g)
    ensures r.Some? ==> IsKSampler(r.value)
  {
    if g == [] then None
    else if IsKSampler(g[0].1.node) then Some(g[0].1.node)
    else FirstSampler(g[1..])
  }

  /** The sampler fields whose value is not `None`, in the order of the dict
      literal. */
  function NonNullFields(inputs: map<string, Value>, keys: seq<string>): (r: seq<(string, Value)>)
    ensures forall p :: p in r ==> p.0 in keys && p.0 in inputs && inputs[p.0] == p.1 && p.1 != VNull
    ensures forall k :: k in keys && k in inputs && inputs[k] != VNull ==> (k, inputs[k]) in r
  {
    if keys == [] then []
    else
      (if keys[0] in inputs && inputs[keys[0]] != VNull then [(keys[0], inputs[keys[0]])] else [])
        + NonNullFields(inputs, keys[1..])
  }

  /** `extract_sampling_params`: only the first `KSampler`/`KSamplerAdvanced`
      node is read, and `None` values are dropped. */
  function ExtractSamplingParams(g: Graph): (r: seq<(string, Value)>)
    requires SamplerScanDefined(g)
    ensures FirstSampler(g).None? ==> r == []
    ensures forall p :: p in r ==> p.0 in SamplingKeys && p.1 != VNull
    ensures FirstSampler(g).Some? ==> var inputs := FirstSampler(g).value.inputs;
      (forall p :: p in r ==> p.0 in inputs && inputs[p.0] == p.1) &&
      (forall k :: k in SamplingKeys && k in inputs && inputs[k] != VNull ==> (k, inputs[k]) in r)
  {
    match FirstSampler(g)
    case None => []
    case Some(n) => NonNullFields(n.inputs, SamplingKeys)
  }

  /** Whatever follows the first sampler does not matter. */
  lemma {:induction false} SamplingIgnoresLaterNodes(a: Graph, key: string, n: Node, b: Graph, c: Graph)
    requires SamplerScanDefined(a + [(key, NodeEntry(n))] + b)
    requires IsKSampler(n)
    requires forall i :: 0 <= i < |a| ==> IsNode(a[i].1) && !IsKSampler(a[i].1.node)
    ensures SamplerScanDefined(a + [(key, NodeEntry(n))] + c)
    ensures ExtractSamplingParams(a + [(key, NodeEntry(n))] + b) == ExtractSamplingParams(a + [(key, NodeEntry(n))] + c)
  {
    if a != [] {
      assert (a + [(key, NodeEntry(n))] + b)[1..] == a[1..] + [(key, NodeEntry(n))] + b;
      assert (a + [(key, NodeEntry(n))] + c)[1..] == a[1..] + [(key, NodeEntry(n))] + c;
      SamplingIgnoresLaterNodes(a[1..], key, n, b, c);
    }
  }

  /* ---------------------------------------------------------------------- */
  /* extract_prompts                                                        */
  /* ---------------------------------------------------------------------- */

  /** The `text` of a `CLIPTextEncode` node, `''` when missing. */
  function EncoderText(n: Node): Value
  {
    if "text" in n.inputs then n.inputs["text"] else VStr("")
  }

  /** Truthy encoder texts in node order. */
  function PromptTexts(g: Graph): seq<Value>
    requires AllNodes(g)
  {
    if g == [] then []
    else
      var n := g[|g| - 1].1.node;
      PromptTexts(g[..|g| - 1]) + if n.classType == "CLIPTextEncode" && Truthy(EncoderText(n)) then [EncoderText(n)] else []
  }

  datatype Prompts = Prompts(positive: Value, negative: Value)

  function PromptStep(p: Prompts, n: Node): Prompts
  {
    if n.classType != "CLIPTextEncode" then p
    else
      var text := EncoderText(n);
      if Truthy(text) && !Truthy(p.positive) then p.(positive := text)
      else if Truthy(text) && !Truthy(p.negative) then p.(negative := text)
      else p
  }

  function PromptScan(g: Graph): Prompts
    requires AllNodes(g)
  {
    if g == [] then Prompts(VStr(""), VStr(""))
    else PromptStep(PromptScan(g[..|g| - 1]), g[|g| - 1].1.node)
  }

  lemma {:induction false} PromptScanCharacterization(g: Graph)
    requires AllNodes(g)
    ensures var t := PromptTexts(g);
      PromptScan(g) == Prompts(if |t| >= 1 then t[0] else VStr(""), if |t| >= 2 then t[1] else VStr(""))
  {
    if g != [] {
      PromptScanCharacterization(g[..|g| - 1]);
      var t := PromptTexts(g[..|g| - 1]);
      if |t| >= 1 { assert t[0] in t; }
      if |t| >= 2 { assert t[1] in t; }
      assert forall v :: v in t ==> Truthy(v) by { PromptTextsTruthy(g[..|g| - 1]); }
    }
  }

  lemma {:induction false} PromptTextsTruthy(g: Graph)
    requires AllNodes(g)
    ensures forall v :: v in PromptTexts(g) ==> Truthy(v)
  {
    if g != [] { PromptTextsTruthy(g[..|g| - 1]); }
  }

  /** `extract_prompts`: the first truthy `CLIPTextEncode` text is the
      positive prompt and the second is the negative one. */
  function ExtractPrompts(g: Graph): (r: Prompts)
    requires AllNodes(g)
    ensures var t := PromptTexts(g);
      r.positive == (if |t| >= 1 then t[0] else VStr("")) &&
      r.negative == (if |t| >= 2 then t[1] else VStr(""))
  {
    PromptScanCharacterization(g);
    PromptScan(g)
  }
}
