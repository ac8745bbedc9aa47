/** The metadata search sorter: the text of a workflow that is searched,
    the any/all/exact term tests, the folders matches are organised into
    and the per-folder numbering of the files copied or moved there. */
module MetadataSearch {
  import opened Text
  import opened Workflow
  import opened Paths
  import opened Probing
  import opened FileOps
  import Analyzer
  import CheckpointSorter

  // ---------------------------------------------------------------------
  // Ordered dictionaries
  // ---------------------------------------------------------------------

  /** A Python dictionary: its keys in insertion order and its values. */
  datatype Dict<V> = Dict(order: seq<string>, vals: map<string, V>)
  {
    predicate Valid()
    {
      Analyzer.NoDuplicates(order) && (forall k :: k in vals ==> k in order) && (forall k :: k in order ==> k in vals)
    }

    /** `d.values()`, in key order. */
    function Values(): (r: seq<V>)
      requires Valid()
      ensures |r| == |order|
      ensures forall i :: 0 <= i < |order| ==> r[i] == vals[order[i]]
    {
      seq(|order|, i requires 0 <= i < |order| => assert order[i] in order; vals[order[i]])
    }
  }

  /** `d[k] = v`: a new key goes last, an existing key keeps its place. */
  function Put<V>(d: Dict<V>, k: string, v: V): (r: Dict<V>)
    requires d.Valid()
    ensures r.Valid()
    ensures r.vals == d.vals[k := v]
    ensures k in d.vals ==> r.order == d.order
    ensures k !in d.vals ==> r.order == d.order + [k]
  {
    if k in d.vals then Dict(d.order, d.vals[k := v])
    else
      assert forall i :: 0 <= i < |d.order| ==> d.order[i] in d.order;
      Dict(d.order + [k], d.vals[k := v])
  }

  // ---------------------------------------------------------------------
  // Searchable content (`_extract_searchable_content`)
  // ---------------------------------------------------------------------

  /** The searchable fields, in the order the content dictionary is built. */
  const FieldNames: seq<string> :=
    ["checkpoints", "loras", "lora_name", "positive_prompt", "negative_prompt", "prompts", "sampling_params",
     "full_metadata"]

  /** The content dictionary is built for every image: `' '.join` of the
      checkpoint and LoRA names raises unless they are text, and the
      analyzer needs every entry to be a node. */
  predicate Searchable(g: Graph)
  {
    AllNodes(g) && Analyzer.SamplerScanDefined(g) &&
    (forall v :: v in Analyzer.Collected(g, Analyzer.CheckpointFields) ==> v.VStr?) &&
    (forall v :: v in Analyzer.Collected(g, Analyzer.LoraFields) ==> v.VStr?)
  }

  /** Field `k` survives the filtering by `fields`. */
  predicate Keeps(fields: seq<string>, k: string)
  {
    fields == [] || k in fields
  }

  /** The prompts are stored as they are; one that the search reads as a
      field of its own must be text. */
  predicate PromptsSearchable(g: Graph, fields: seq<string>)
    requires AllNodes(g)
  {
    var p := Analyzer.ExtractPrompts(g);
    (Keeps(fields, "positive_prompt") ==> p.positive.VStr?) &&
    (Keeps(fields, "negative_prompt") ==> p.negative.VStr?)
  }

  /** Searching only `lora_name` reads neither prompt, whatever they hold. */
  lemma LoraFieldIgnoresPrompts(g: Graph)
    requires AllNodes(g)
    ensures PromptsSearchable(g, ["lora_name"])
  {
  }

  function StrAll(vs: seq<Value>): (r: seq<string>)
    ensures |r| == |vs|
  {
    seq(|vs|, i requires 0 <= i < |vs| => Str(vs[i]))
  }

  /** `' '.join(f"{k}:{v}" for k, v in sampling.items())`. */
  function SamplingText(params: seq<(string, Value)>): string
  {
    Join(" ", seq(|params|, i requires 0 <= i < |params| => params[i].0 + ":" + Str(params[i].1)))
  }

  lemma FieldNamesDistinct()
    ensures Analyzer.NoDuplicates(FieldNames)
  {
  }

  /** What the analyzer extracts for the content dictionary, as text;
      `dump` is `json.dumps(metadata)`. */
  datatype Extracted = Extracted(checkpoints: string, loras: string, positive: string, negative: string,
                                 sampling: string, dump: string)

  function Extract(g: Graph, dump: string): Extracted
    requires Searchable(g)
  {
    var prompts := Analyzer.ExtractPrompts(g);
    Extracted(Join(" ", StrAll(Analyzer.ExtractCheckpoints(g))), Join(" ", StrAll(Analyzer.ExtractLoras(g))),
              Str(prompts.positive), Str(prompts.negative), SamplingText(Analyzer.ExtractSamplingParams(g)), dump)
  }

  /** The value of field `k` of the content dictionary. */
  function FieldValue(e: Extracted, k: string): string
  {
    if k == "checkpoints" then e.checkpoints
    else if k == "loras" || k == "lora_name" then e.loras
    else if k == "positive_prompt" then e.positive
    else if k == "negative_prompt" then e.negative
    else if k == "prompts" then e.positive + " " + e.negative
    else if k == "sampling_params" then e.sampling
    else Lower(e.dump)
  }

  /** The content dictionary before filtering: `lora_name` is an alias of
      `loras`, and `full_metadata` is the lower-cased JSON text. */
  function Content(e: Extracted): (c: Dict<string>)
    ensures c.Valid() && c.order == FieldNames
  {
    FieldNamesDistinct();
    Dict(FieldNames, map k | k in FieldNames :: FieldValue(e, k))
  }

  /** `lora_name` is an alias of `loras`, `prompts` joins both prompts, and
      `full_metadata` is the lower-cased JSON text. */
  lemma ContentAliases(e: Extracted)
    ensures "lora_name" in Content(e).vals && "loras" in Content(e).vals
    ensures Content(e).vals["lora_name"] == Content(e).vals["loras"] == e.loras
    ensures "prompts" in Content(e).vals && Content(e).vals["prompts"] == e.positive + " " + e.negative
    ensures "full_metadata" in Content(e).vals && Content(e).vals["full_metadata"] == Lower(e.dump)
  {
    FieldAliases(e);
    ContentVals(e, "lora_name");
    ContentVals(e, "loras");
    ContentVals(e, "prompts");
    ContentVals(e, "full_metadata");
  }

  lemma FieldAliases(e: Extracted)
    ensures FieldValue(e, "lora_name") == FieldValue(e, "loras") == e.loras
    ensures FieldValue(e, "prompts") == e.positive + " " + e.negative
    ensures FieldValue(e, "full_metadata") == Lower(e.dump)
    ensures "loras" in FieldNames && "lora_name" in FieldNames && "prompts" in FieldNames
    ensures "full_metadata" in FieldNames
  {
    assert FieldNames[1] == "loras" && FieldNames[2] == "lora_name";
    assert FieldNames[5] == "prompts" && FieldNames[7] == "full_metadata";
  }

  /** The filtering loop over `search_fields`: a known field is copied, an
      unknown one brings in `full_metadata` instead. */
  function Filtered(c: Dict<string>, fields: seq<string>): (r: Dict<string>)
    requires c.Valid() && c.order == FieldNames
    ensures r.Valid()
  {
    if fields == [] then Dict([], map[])
    else
      var acc := Filtered(c, fields[..|fields| - 1]);
      var f := fields[|fields| - 1];
      if f in c.vals then Put(acc, f, c.vals[f])
      else Put(acc, "full_metadata", c.vals["full_metadata"])
  }

  /** `_extract_searchable_content`; an empty `search_fields` list searches
      everything, as `None` does. */
  function SearchableContent(e: Extracted, fields: seq<string>): (r: Dict<string>)
    ensures r.Valid()
  {
    var c := Content(e);
    if fields == [] then c else Filtered(c, fields)
  }

  /** Some requested field is not a field of the content dictionary. */
  predicate SomeUnknown(fields: seq<string>)
  {
    exists f :: f in fields && f !in FieldNames
  }

  /** The filtered content holds exactly the requested known fields, plus
      `full_metadata` when some requested field is unknown, each with its
      unfiltered value. */
  lemma {:induction false} FilteredSpec(c: Dict<string>, fields: seq<string>)
    requires c.Valid() && c.order == FieldNames
    ensures forall k :: k in Filtered(c, fields).vals <==>
      (k in fields && k in FieldNames) || (k == "full_metadata" && SomeUnknown(fields))
    ensures forall k :: k in Filtered(c, fields).vals ==> Filtered(c, fields).vals[k] == c.vals[k]
  {
    if fields != [] {
      var front, f := fields[..|fields| - 1], fields[|fields| - 1];
      FilteredSpec(c, front);
      MembersOfSnoc(fields);
      assert SomeUnknown(fields) <==> SomeUnknown(front) || f !in FieldNames;
    }
  }

  lemma MembersOfSnoc(s: seq<string>)
    requires s != []
    ensures forall x :: x in s <==> x in s[..|s| - 1] || x == s[|s| - 1]
  {
    assert s == s[..|s| - 1] + [s[|s| - 1]];
  }

  // ---------------------------------------------------------------------
  // Term tests
  // ---------------------------------------------------------------------

  /** Both sides are lower-cased unless the search is case sensitive. */
  function Fold(caseSensitive: bool, s: string): string
  {
    if caseSensitive then s else Lower(s)
  }

  /** `_term_matches_content` without regular expressions: some non-empty
      field contains the term. */
  function TermMatches(values: seq<string>, term: string, caseSensitive: bool): (r: bool)
    ensures r <==> exists i :: 0 <= i < |values| && values[i] != "" && Contains(Fold(caseSensitive, values[i]), Fold(caseSensitive, term))
  {
    if values == [] then false
    else if values[0] != "" && Contains(Fold(caseSensitive, values[0]), Fold(caseSensitive, term)) then true
    else
      var r := TermMatches(values[1..], term, caseSensitive);
      if r then
        var i :| 0 <= i < |values[1..]| && values[1..][i] != "" && Contains(Fold(caseSensitive, values[1..][i]), Fold(caseSensitive, term));
        assert values[i + 1] == values[1..][i];
        r
      else
        assert forall i :: 1 <= i < |values| ==> values[i] == values[1..][i - 1];
        r
  }

  /** `_search_any_term`: some term matches; no term never matches. */
  function SearchAnyTerm(values: seq<string>, terms: seq<string>, caseSensitive: bool): (r: bool)
    ensures r <==> exists i :: 0 <= i < |terms| && TermMatches(values, terms[i], caseSensitive)
  {
    if terms == [] then false
    else if TermMatches(values, terms[0], caseSensitive) then true
    else
      var r := SearchAnyTerm(values, terms[1..], caseSensitive);
      assert forall i :: 1 <= i < |terms| ==> terms[i] == terms[1..][i - 1];
      r
  }

  /** `_search_all_terms`: every term matches; no term always matches. */
  function SearchAllTerms(values: seq<string>, terms: seq<string>, caseSensitive: bool): (r: bool)
    ensures r <==> forall i :: 0 <= i < |terms| ==> TermMatches(values, terms[i], caseSensitive)
  {
    if terms == [] then true
    else if !TermMatches(values, terms[0], caseSensitive) then false
    else
      var r := SearchAllTerms(values, terms[1..], caseSensitive);
      assert forall i :: 1 <= i < |terms| ==> terms[i] == terms[1..][i - 1];
      r
  }

  /** `_search_exact_match`: every term occurs in the field values joined
      by single spaces (empty fields included). */
  predicate SearchExactMatch(values: seq<string>, terms: seq<string>, caseSensitive: bool)
  {
    var combined := Fold(caseSensitive, Join(" ", values));
    forall t :: t in terms ==> Contains(combined, Fold(caseSensitive, t))
  }

  /** Each part of a join sits between some prefix and suffix. */
  lemma {:induction false} JoinHasPart(sep: string, parts: seq<string>, i: nat)
    requires i < |parts|
    ensures exists a, b :: Join(sep, parts) == a + parts[i] + b
  {
    if |parts| == 1 {
      assert Join(sep, parts) == "" + parts[0] + "";
    } else if i == 0 {
      assert Join(sep, parts) == "" + parts[0] + (sep + Join(sep, parts[1..]));
    } else {
      JoinHasPart(sep, parts[1..], i - 1);
      var a, b :| Join(sep, parts[1..]) == a + parts[1..][i - 1] + b;
      assert Join(sep, parts) == (parts[0] + sep + a) + parts[i] + b;
    }
  }

  /** A term found in one field is found in the joined fields. */
  lemma ContainsInJoin(values: seq<string>, i: nat, term: string, caseSensitive: bool)
    requires i < |values|
    requires Contains(Fold(caseSensitive, values[i]), Fold(caseSensitive, term))
    ensures Contains(Fold(caseSensitive, Join(" ", values)), Fold(caseSensitive, term))
  {
    JoinHasPart(" ", values, i);
    var a, b :| Join(" ", values) == a + values[i] + b;
    var t := Fold(caseSensitive, term);
    if !caseSensitive {
      LowerConcat(a + values[i], b);
      LowerConcat(a, values[i]);
    }
    assert Fold(caseSensitive, Join(" ", values)) ==
      Fold(caseSensitive, a) + Fold(caseSensitive, values[i]) + Fold(caseSensitive, b);
    ContainsInConcat(Fold(caseSensitive, a), Fold(caseSensitive, values[i]), t);
    ContainsInConcat(Fold(caseSensitive, a) + Fold(caseSensitive, values[i]), Fold(caseSensitive, b), t);
  }

  /** Every image the "all" mode accepts, the "exact" mode accepts too. */
  lemma AllTermsImpliesExact(values: seq<string>, terms: seq<string>, caseSensitive: bool)
    requires SearchAllTerms(values, terms, caseSensitive)
    ensures SearchExactMatch(values, terms, caseSensitive)
  {
    forall t | t in terms
      ensures Contains(Fold(caseSensitive, Join(" ", values)), Fold(caseSensitive, t))
    {
      var k :| 0 <= k < |terms| && terms[k] == t;
      assert TermMatches(values, terms[k], caseSensitive);
      var i :| 0 <= i < |values| && values[i] != "" && Contains(Fold(caseSensitive, values[i]), Fold(caseSensitive, t));
      ContainsInJoin(values, i, t, caseSensitive);
    }
  }

  /** The converse fails: a term may span two fields of the joined text. */
  lemma ExactSpansFields()
    ensures SearchExactMatch(["a", "b"], ["a b"], false) && !SearchAllTerms(["a", "b"], ["a b"], false)
  {
    var values := ["a", "b"];
    assert Join(" ", values) == "a b";
    assert OccursAt(Lower("a b"), Lower("a b"), 0);
    forall i | 0 <= i < |values| ensures !Contains(Lower(values[i]), Lower("a b")) {
      assert |Lower(values[i])| < |Lower("a b")|;
    }
  }

  // ---------------------------------------------------------------------
  // Searching (`_search_metadata`)
  // ---------------------------------------------------------------------

  /** The metadata of an image can be searched on `fields`: when there is
      some, it is searchable and so are the prompts those fields keep. */
  predicate SearchableResult(m: Option<Graph>, fields: seq<string>)
  {
    CheckpointSorter.HasMetadata(m) ==> Searchable(m.value) && PromptsSearchable(m.value, fields)
  }

  /** Whether `_search_metadata` adds an image with metadata `m`; `dump`
      is the JSON text of `m`. */
  predicate Matches(m: Option<Graph>, dump: string, terms: seq<string>, mode: string, fields: seq<string>,
                    caseSensitive: bool)
    requires SearchableResult(m, fields)
  {
    CheckpointSorter.HasMetadata(m) && ContentMatches(Extract(m.value, dump), terms, mode, fields, caseSensitive)
  }

  /** The test `_search_metadata` applies to the extracted text. */
  predicate ContentMatches(e: Extracted, terms: seq<string>, mode: string, fields: seq<string>, caseSensitive: bool)
  {
    var values := SearchableContent(e, fields).Values();
    if mode == "any" then SearchAnyTerm(values, terms, caseSensitive)
    else if mode == "all" then SearchAllTerms(values, terms, caseSensitive)
    else if mode == "exact" then SearchExactMatch(values, terms, caseSensitive)
    else false
  }

  /** Images without metadata, unknown modes and an empty "any" search
      never match; an empty "all" search matches every image with
      metadata. */
  lemma MatchesCases(m: Option<Graph>, dump: string, terms: seq<string>, mode: string, fields: seq<string>,
                     caseSensitive: bool)
    requires SearchableResult(m, fields)
    ensures !CheckpointSorter.HasMetadata(m) ==> !Matches(m, dump, terms, mode, fields, caseSensitive)
    ensures mode != "any" && mode != "all" && mode != "exact" ==> !Matches(m, dump, terms, mode, fields, caseSensitive)
    ensures mode == "any" && terms == [] ==> !Matches(m, dump, terms, mode, fields, caseSensitive)
    ensures mode == "all" && terms == [] ==>
      (Matches(m, dump, terms, mode, fields, caseSensitive) <==> CheckpointSorter.HasMetadata(m))
  {
  }

  /** Whether the image at `path` matches, looked up in the extraction
      results. */
  predicate FileMatches(results: CheckpointSorter.Results, path: string, dumps: Graph -> string, terms: seq<string>,
                        mode: string, fields: seq<string>, caseSensitive: bool)
    requires SearchableResult(CheckpointSorter.MetaOf(results, path), fields)
  {
    var m := CheckpointSorter.MetaOf(results, path);
    Matches(m, if m.Some? then dumps(m.value) else "", terms, mode, fields, caseSensitive)
  }

  /** The images of `files` that match. */
  function MatchSet(files: seq<string>, results: CheckpointSorter.Results, dumps: Graph -> string, terms: seq<string>,
                    mode: string, fields: seq<string>, caseSensitive: bool): set<string>
    requires forall f :: f in files ==> SearchableResult(CheckpointSorter.MetaOf(results, f), fields)
  {
    if files == [] then {}
    else
      var f := files[|files| - 1];
      MatchSet(files[..|files| - 1], results, dumps, terms, mode, fields, caseSensitive) +
      if FileMatches(results, f, dumps, terms, mode, fields, caseSensitive) then {f} else {}
  }

  /** One more file extends the match set by that file exactly when it matches. */
  lemma MatchSetStep(files: seq<string>, i: nat, results: CheckpointSorter.Results, dumps: Graph -> string,
                     terms: seq<string>, mode: string, fields: seq<string>, caseSensitive: bool)
    requires i < |files|
    requires forall f :: f in files ==> SearchableResult(CheckpointSorter.MetaOf(results, f), fields)
    ensures MatchSet(files[..i + 1], results, dumps, terms, mode, fields, caseSensitive) ==
            MatchSet(files[..i], results, dumps, terms, mode, fields, caseSensitive) +
            if FileMatches(results, files[i], dumps, terms, mode, fields, caseSensitive) then {files[i]} else {}
  {
    assert files[..i + 1][..i] == files[..i];
  }

  lemma {:induction false} MatchSetSpec(files: seq<string>, results: CheckpointSorter.Results, dumps: Graph -> string,
                                        terms: seq<string>, mode: string, fields: seq<string>, caseSensitive: bool)
    requires forall f :: f in files ==> SearchableResult(CheckpointSorter.MetaOf(results, f), fields)
    ensures forall f :: f in MatchSet(files, results, dumps, terms, mode, fields, caseSensitive) <==>
      f in files && FileMatches(results, f, dumps, terms, mode, fields, caseSensitive)
  {
    if files != [] {
      MatchSetSpec(files[..|files| - 1], results, dumps, terms, mode, fields, caseSensitive);
      MembersOfSnoc(files);
    }
  }

  // ---------------------------------------------------------------------
  // Organising matches (`_organize_by_search_terms`)
  // ---------------------------------------------------------------------

  /** The characters `re.sub(r'[<>:"|?*\\\/]', '_', term)` replaces. */
  const FolderUnsafe: set<char> := {'<', '>', ':', '"', '|', '?', '*', '\\', '/'}

  /** The folder name of a search term. */
  function CleanTerm(term: string): (r: string)
    ensures |r| == |term|
    ensures forall i :: 0 <= i < |r| ==> r[i] !in FolderUnsafe
    ensures forall i :: 0 <= i < |r| ==> term[i] !in FolderUnsafe ==> r[i] == term[i]
  {
    MapChars(term, FolderUnsafe, '_')
  }

  /** The matches whose file name contains `term`, ignoring case, in the
      order they are enumerated. */
  function NameMatches(matches: seq<string>, term: string): (r: seq<string>)
    ensures |r| <= |matches|
  {
    if matches == [] then []
    else
      var f := matches[|matches| - 1];
      NameMatches(matches[..|matches| - 1], term) + if NameHas(f, term) then [f] else []
  }

  lemma NameMatchesStep(matches: seq<string>, term: string, j: nat)
    requires j < |matches|
    ensures NameMatches(matches[..j + 1], term) ==
      NameMatches(matches[..j], term) + if NameHas(matches[j], term) then [matches[j]] else []
  {
    assert matches[..j + 1][..j] == matches[..j];
  }

  /** `term.lower() in file.name.lower()`. */
  predicate NameHas(f: string, term: string)
  {
    Contains(Lower(Basename(f)), Lower(term))
  }

  lemma {:induction false} NameMatchesSpec(matches: seq<string>, term: string)
    ensures forall f :: f in NameMatches(matches, term) <==> f in matches && NameHas(f, term)
  {
    if matches != [] {
      NameMatchesSpec(matches[..|matches| - 1], term);
      MembersOfSnoc(matches);
    }
  }

  /** No term has a match. */
  predicate NoneFound(matches: seq<string>, terms: seq<string>)
  {
    forall i :: 0 <= i < |terms| ==> NameMatches(matches, terms[i]) == []
  }

  /** One more term with no match keeps "no term has a match" as it was. */
  lemma NoneFoundSnoc(matches: seq<string>, terms: seq<string>)
    requires terms != []
    ensures NoneFound(matches, terms) <==>
      NoneFound(matches, terms[..|terms| - 1]) && NameMatches(matches, terms[|terms| - 1]) == []
  {
    assert forall i :: 0 <= i < |terms| - 1 ==> terms[..|terms| - 1][i] == terms[i];
  }

  /** Term `i` gives folder `k` a non-empty list. */
  predicate FolderOfTerm(matches: seq<string>, terms: seq<string>, k: string, i: int)
  {
    0 <= i < |terms| && CleanTerm(terms[i]) == k && NameMatches(matches, terms[i]) != []
  }

  /** ... and no later term does. */
  predicate LastFolderTerm(matches: seq<string>, terms: seq<string>, k: string, i: int)
  {
    FolderOfTerm(matches, terms, k, i) && forall j :: i < j < |terms| ==> !FolderOfTerm(matches, terms, k, j)
  }

  /** The term folders: `organized[clean_term] = term_matches` for each term
      with a match. There are none exactly when no term has a match. */
  function TermFolders(matches: seq<string>, terms: seq<string>): (r: Dict<seq<string>>)
    ensures r.Valid()
    ensures r.order == [] <==> NoneFound(matches, terms)
  {
    if terms == [] then Dict([], map[])
    else
      var front := terms[..|terms| - 1];
      var acc := TermFolders(matches, front);
      var t := terms[|terms| - 1];
      var found := NameMatches(matches, t);
      NoneFoundSnoc(matches, terms);
      if found != [] then
        var r := Put(acc, CleanTerm(t), found);
        assert CleanTerm(t) in r.order;
        r
      else acc
  }

  /** `_organize_by_search_terms`: the term folders, or every match in
      `search_results` when no term has a match. */
  function Organize(matches: seq<string>, terms: seq<string>): (r: Dict<seq<string>>)
    ensures r.Valid()
    ensures NoneFound(matches, terms) ==> r == Dict(["search_results"], map["search_results" := matches])
    ensures !NoneFound(matches, terms) ==> r == TermFolders(matches, terms)
  {
    var folders := TermFolders(matches, terms);
    if folders.order == [] then Dict(["search_results"], map["search_results" := matches]) else folders
  }

  /** A folder exists for exactly the cleaned terms with a match. */
  lemma {:induction false} TermFolderKeys(matches: seq<string>, terms: seq<string>)
    ensures forall k :: k in TermFolders(matches, terms).vals <==> exists i :: FolderOfTerm(matches, terms, k, i)
  {
    if terms != [] {
      var front, n := terms[..|terms| - 1], |terms| - 1;
      TermFolderKeys(matches, front);
      var acc, r := TermFolders(matches, front), TermFolders(matches, terms);
      assert forall k :: k in r.vals <==> k in acc.vals || FolderOfTerm(matches, terms, k, n);
      FolderOfTermSnoc(matches, terms);
      forall k ensures k in r.vals <==> exists i :: FolderOfTerm(matches, terms, k, i) {
        if k in r.vals {
          if !FolderOfTerm(matches, terms, k, n) {
            var i :| FolderOfTerm(matches, front, k, i);
            assert FolderOfTerm(matches, terms, k, i);
          }
        }
        if exists i :: FolderOfTerm(matches, terms, k, i) {
          var i :| FolderOfTerm(matches, terms, k, i);
          if i < n {
            assert FolderOfTerm(matches, front, k, i);
          }
        }
      }
    }
  }

  /** Term `i < n` of `terms` gives the same folder as term `i` of its first
      `n` terms. */
  lemma FolderOfTermSnoc(matches: seq<string>, terms: seq<string>)
    requires terms != []
    ensures forall k, i :: 0 <= i < |terms| - 1 ==>
      (FolderOfTerm(matches, terms, k, i) <==> FolderOfTerm(matches, terms[..|terms| - 1], k, i))
  {
  }

  /** A folder holds the matches of the last term cleaned to its name. */
  lemma {:induction false} TermFolderValues(matches: seq<string>, terms: seq<string>, k: string)
    requires k in TermFolders(matches, terms).vals
    ensures exists i :: LastFolderTerm(matches, terms, k, i) && TermFolders(matches, terms).vals[k] == NameMatches(matches, terms[i])
  {
    var front, n := terms[..|terms| - 1], |terms| - 1;
    if FolderOfTerm(matches, terms, k, n) {
      TermFolderLast(matches, terms, k);
    } else {
      TermFolderKeep(matches, terms, k);
      TermFolderValues(matches, front, k);
      var i :| LastFolderTerm(matches, front, k, i) &&
        TermFolders(matches, front).vals[k] == NameMatches(matches, front[i]);
      TermFolderEarlier(matches, terms, k, i);
    }
  }

  lemma {:induction false} TermFolderLast(matches: seq<string>, terms: seq<string>, k: string)
    requires terms != [] && FolderOfTerm(matches, terms, k, |terms| - 1)
    ensures k in TermFolders(matches, terms).vals
    ensures LastFolderTerm(matches, terms, k, |terms| - 1)
    ensures TermFolders(matches, terms).vals[k] == NameMatches(matches, terms[|terms| - 1])
  {
  }

  lemma {:induction false} TermFolderKeep(matches: seq<string>, terms: seq<string>, k: string)
    requires terms != [] && !FolderOfTerm(matches, terms, k, |terms| - 1)
    requires k in TermFolders(matches, terms).vals
    ensures k in TermFolders(matches, terms[..|terms| - 1]).vals
    ensures TermFolders(matches, terms).vals[k] == TermFolders(matches, terms[..|terms| - 1]).vals[k]
  {
  }

  lemma {:induction false} TermFolderEarlier(matches: seq<string>, terms: seq<string>, k: string, i: int)
    requires terms != [] && !FolderOfTerm(matches, terms, k, |terms| - 1)
    requires LastFolderTerm(matches, terms[..|terms| - 1], k, i)
    ensures LastFolderTerm(matches, terms, k, i) && terms[i] == terms[..|terms| - 1][i]
  {
    var n := |terms| - 1;
    FolderOfTermSnoc(matches, terms);
    forall j | i < j < |terms| ensures !FolderOfTerm(matches, terms, k, j) {
      if j < n {
        assert !FolderOfTerm(matches, terms[..n], k, j);
      }
    }
  }

  // ---------------------------------------------------------------------
  // The input images (`_find_png_files`)
  // ---------------------------------------------------------------------

  /** `name.lower().endswith('.png')`. */
  predicate IsPng(name: string)
  {
    EndsWith(Lower(name), ".png")
  }

  /** The PNG entries of a directory listing, joined to the directory. */
  function PngFiles(dir: string, names: seq<string>): (r: seq<string>)
    ensures |r| <= |names|
  {
    if names == [] then []
    else
      var n := |names| - 1;
      PngFiles(dir, names[..n]) + if IsPng(names[n]) then [PathJoin(dir, names[n])] else []
  }

  /** Every PNG entry is listed, and nothing else is. */
  lemma {:induction false} PngFilesSpec(dir: string, names: seq<string>)
    ensures forall i :: 0 <= i < |names| && IsPng(names[i]) ==> PathJoin(dir, names[i]) in PngFiles(dir, names)
    ensures forall p :: p in PngFiles(dir, names) ==>
      exists i :: 0 <= i < |names| && IsPng(names[i]) && p == PathJoin(dir, names[i])
  {
    if names != [] {
      var n := |names| - 1;
      PngFilesSpec(dir, names[..n]);
      var front := PngFiles(dir, names[..n]);
      assert forall i :: 0 <= i < n ==> names[..n][i] == names[i];
      forall p | p in PngFiles(dir, names)
        ensures exists i :: 0 <= i < |names| && IsPng(names[i]) && p == PathJoin(dir, names[i])
      {
        if p in front {
          var i :| 0 <= i < n && IsPng(names[..n][i]) && p == PathJoin(dir, names[..n][i]);
          assert IsPng(names[i]) && p == PathJoin(dir, names[i]);
        } else {
          assert IsPng(names[n]) && p == PathJoin(dir, names[n]);
        }
      }
    }
  }

  /** The counters of the sorter. */
  datatype SearchStats = SearchStats(totalImages: nat, imagesMatched: nat, imagesSorted: nat, searchTermsUsed: nat,
                                     foldersCreated: nat)

  // ---------------------------------------------------------------------
  // Copying or moving into the folders (`_sort_search_results`)
  // ---------------------------------------------------------------------

  /** The target of the `j`-th file (from 0) of `folder`: the renamed name,
      numbered from 1 in each folder, or the file's own name made free. */
  function Destination(existing: set<string>, outDir: string, folder: string, file: string, j: nat, rename: bool,
                       prefix: string): string
  {
    var folderPath := PathJoin(outDir, folder);
    if rename then PathJoin(folderPath, RenamedName(prefix, folder, j + 1, SplitExt(file).1))
    else Resolved(existing, PathJoin(folderPath, Basename(file)))
  }

  /** How the files of one folder are named. */
  function Namer(outDir: string, folder: string, rename: bool, prefix: string): (set<string>, string, nat) -> string
  {
    (existing: set<string>, file: string, j: nat) => Destination(existing, outDir, folder, file, j, rename, prefix)
  }

  /** The files of one folder, in list order; `name` gives the target of
      the `j`-th file from the paths that exist at that point. */
  function FolderRun(s: Sorting, files: seq<string>, name: (set<string>, string, nat) -> string, move: bool)
    : (r: Sorting)
    ensures |r.ops| == |s.ops| + |files|
  {
    if files == [] then s
    else
      var n := |files| - 1;
      var t := FolderRun(s, files[..n], name, move);
      Transfer(t, files[n], name(t.existing, files[n], n), move)
  }

  /** The folders in dictionary order. */
  function Run(s: Sorting, outDir: string, order: seq<string>, vals: map<string, seq<string>>, move: bool,
               rename: bool, prefix: string): Sorting
    requires forall k :: k in order ==> k in vals
  {
    if order == [] then s
    else
      var n := |order| - 1;
      assert order[n] in order;
      FolderRun(Run(s, outDir, order[..n], vals, move, rename, prefix), vals[order[n]],
                Namer(outDir, order[n], rename, prefix), move)
  }

  /** One more folder is one more folder run. */
  lemma RunSnoc(s: Sorting, outDir: string, order: seq<string>, vals: map<string, seq<string>>, move: bool,
                rename: bool, prefix: string, q: nat)
    requires forall k :: k in order ==> k in vals
    requires q < |order|
    ensures order[q] in vals
    ensures Run(s, outDir, order[..q + 1], vals, move, rename, prefix) ==
      FolderRun(Run(s, outDir, order[..q], vals, move, rename, prefix), vals[order[q]],
                Namer(outDir, order[q], rename, prefix), move)
  {
    assert order[q] in order;
    assert order[..q + 1][..q] == order[..q];
  }

  /** One more file is one more transfer. */
  lemma FolderRunSnoc(s: Sorting, files: seq<string>, name: (set<string>, string, nat) -> string, move: bool, j: nat)
    requires j < |files|
    ensures var t := FolderRun(s, files[..j], name, move);
      FolderRun(s, files[..j + 1], name, move) == Transfer(t, files[j], name(t.existing, files[j], j), move)
  {
    assert files[..j + 1][..j] == files[..j];
  }

  /** The `j`-th operation of a folder moves its `j`-th file to the name
      given for it at that point. */
  lemma {:induction false} FolderRunOps(s: Sorting, files: seq<string>, name: (set<string>, string, nat) -> string,
                                        move: bool, j: nat)
    requires j < |files|
    ensures var r := FolderRun(s, files, name, move);
      r.ops[|s.ops| + j].source == files[j] &&
      r.ops[|s.ops| + j].dest == name(FolderRun(s, files[..j], name, move).existing, files[j], j)
  {
    var n := |files| - 1;
    var t := FolderRun(s, files[..n], name, move);
    assert |t.ops| == |s.ops| + n;
    if j < n {
      FolderRunOps(s, files[..n], name, move, j);
      assert files[..n][..j] == files[..j];
      TransferSpec(t, files[n], name(t.existing, files[n], n), move);
      assert FolderRun(s, files, name, move).ops[..|t.ops|] == t.ops;
    } else {
      assert files[..j] == files[..n];
    }
  }

  /** With renaming, the `j`-th file of a folder becomes
      `{prefix}_{folder}_img{j + 1}{ext}` in that folder: the counter of
      each folder starts at 1 and goes up by one per file. */
  lemma RenamedTargets(s: Sorting, outDir: string, folder: string, files: seq<string>, move: bool, prefix: string,
                       j: nat)
    requires j < |files|
    ensures var r := FolderRun(s, files, Namer(outDir, folder, true, prefix), move);
      r.ops[|s.ops| + j].dest ==
      PathJoin(PathJoin(outDir, folder), RenamedName(prefix, folder, j + 1, SplitExt(files[j]).1))
  {
    FolderRunOps(s, files, Namer(outDir, folder, true, prefix), move, j);
  }

  /** Without renaming, every file that is sorted lands on a path that did
      not exist before: nothing is overwritten. */
  lemma {:induction false} NoOverwrite(s: Sorting, outDir: string, folder: string, files: seq<string>, move: bool,
                                       prefix: string, j: nat)
    requires j < |files|
    ensures var before := FolderRun(s, files[..j], Namer(outDir, folder, false, prefix), move).existing;
      FolderRun(s, files, Namer(outDir, folder, false, prefix), move).ops[|s.ops| + j].dest !in before
  {
    var name := Namer(outDir, folder, false, prefix);
    FolderRunOps(s, files, name, move, j);
    var before := FolderRun(s, files[..j], name, move).existing;
    ResolvedSpec(before, PathJoin(PathJoin(outDir, folder), Basename(files[j])));
  }

  lemma {:induction false} FolderRunSorted(s: Sorting, files: seq<string>, name: (set<string>, string, nat) -> string,
                                           move: bool)
    requires s.sorted == CountOk(s.ops)
    ensures var r := FolderRun(s, files, name, move); r.sorted == CountOk(r.ops)
  {
    if files != [] {
      var n := |files| - 1;
      FolderRunSorted(s, files[..n], name, move);
      var t := FolderRun(s, files[..n], name, move);
      TransferCounts(t, files[n], name(t.existing, files[n], n), move);
    }
  }

  /** `images_sorted` grows by the number of operations that succeeded. */
  lemma {:induction false} RunSorted(s: Sorting, outDir: string, order: seq<string>, vals: map<string, seq<string>>,
                                     move: bool, rename: bool, prefix: string)
    requires forall k :: k in order ==> k in vals
    requires s.sorted == CountOk(s.ops)
    ensures var r := Run(s, outDir, order, vals, move, rename, prefix); r.sorted == CountOk(r.ops)
  {
    if order != [] {
      var n := |order| - 1;
      RunSorted(s, outDir, order[..n], vals, move, rename, prefix);
      assert order[n] in order;
      FolderRunSorted(Run(s, outDir, order[..n], vals, move, rename, prefix), vals[order[n]],
                      Namer(outDir, order[n], rename, prefix), move);
    }
  }

  // ---------------------------------------------------------------------
  // Convenience searches (`search_specific_lora`, `search_by_prompt_keywords`)
  // ---------------------------------------------------------------------

  /** The LoRA names of `e` contain `lora`, ignoring case. */
  predicate LoraHas(e: Extracted, lora: string)
  {
    e.loras != "" && Contains(Lower(e.loras), Lower(lora))
  }

  /** The positive or the negative prompt of `e` contains `keyword`,
      ignoring case. */
  predicate PromptHas(e: Extracted, keyword: string)
  {
    (e.positive != "" && Contains(Lower(e.positive), Lower(keyword))) ||
    (e.negative != "" && Contains(Lower(e.negative), Lower(keyword)))
  }

  const PromptFields: seq<string> := ["positive_prompt", "negative_prompt"]

  /** Filtering to distinct known fields keeps them in the order asked,
      each with its unfiltered value. */
  lemma {:induction false} FilteredKnown(c: Dict<string>, fields: seq<string>)
    requires c.Valid() && c.order == FieldNames
    requires Analyzer.NoDuplicates(fields)
    requires forall i :: 0 <= i < |fields| ==> fields[i] in FieldNames
    ensures Filtered(c, fields).order == fields
    ensures forall i :: 0 <= i < |fields| ==> Filtered(c, fields).Values()[i] == c.vals[fields[i]]
  {
    FilteredOrder(c, fields);
    FilteredSpec(c, fields);
  }

  /** The order half: each distinct known field is appended once. */
  lemma {:induction false} FilteredOrder(c: Dict<string>, fields: seq<string>)
    requires c.Valid() && c.order == FieldNames
    requires Analyzer.NoDuplicates(fields)
    requires forall i :: 0 <= i < |fields| ==> fields[i] in FieldNames
    ensures Filtered(c, fields).order == fields
  {
    if fields != [] {
      var n := |fields| - 1;
      var front := fields[..n];
      assert Analyzer.NoDuplicates(front) && forall i :: 0 <= i < n ==> front[i] == fields[i];
      FilteredOrder(c, front);
      FilteredSpec(c, front);
      assert !SomeUnknown(front);
      assert fields[n] !in front by {
        forall i | 0 <= i < n ensures front[i] != fields[n] {
          assert front[i] == fields[i];
        }
      }
      SplitLast(fields);
    }
  }

  lemma SplitLast(s: seq<string>)
    requires s != []
    ensures s[..|s| - 1] + [s[|s| - 1]] == s
  {
  }

  /** Each field of the content dictionary holds its field value. */
  lemma ContentVals(e: Extracted, k: string)
    requires k in FieldNames
    ensures k in Content(e).vals && Content(e).vals[k] == FieldValue(e, k)
  {
  }

  /** The prompt search looks at the positive and the negative prompt. */
  lemma PromptValues(e: Extracted)
    ensures SearchableContent(e, PromptFields).Values() == [e.positive, e.negative]
  {
    assert PromptFields[0] == FieldNames[3] && PromptFields[1] == FieldNames[4];
    assert PromptFields[0][0] != PromptFields[1][0];
    FilteredKnown(Content(e), PromptFields);
    ContentVals(e, PromptFields[0]);
    ContentVals(e, PromptFields[1]);
    PromptFieldValues(e);
  }

  lemma PromptFieldValues(e: Extracted)
    ensures FieldValue(e, PromptFields[0]) == e.positive
    ensures FieldValue(e, PromptFields[1]) == e.negative
  {
  }

  /** Searching only `lora_name` for one term in "any" mode, ignoring case,
      finds exactly the images whose LoRA names contain the term. */
  lemma LoraSearch(e: Extracted, lora: string)
    ensures ContentMatches(e, [lora], "any", ["lora_name"], false) <==> LoraHas(e, lora)
  {
    var fields := ["lora_name"];
    assert fields[0] == FieldNames[2];
    FilteredKnown(Content(e), fields);
    var values := SearchableContent(e, fields).Values();
    assert values == [e.loras];
    assert TermMatches(values, lora, false) <==> LoraHas(e, lora);
  }

  /** Searching the two prompts finds an image when some keyword ("any")
      or every keyword ("all") occurs in one of its prompts. */
  lemma PromptSearch(e: Extracted, keywords: seq<string>, requireAll: bool)
    ensures ContentMatches(e, keywords, if requireAll then "all" else "any", PromptFields, false) <==>
      if requireAll then forall i :: 0 <= i < |keywords| ==> PromptHas(e, keywords[i])
      else exists i :: 0 <= i < |keywords| && PromptHas(e, keywords[i])
  {
    PromptValues(e);
    var values := SearchableContent(e, PromptFields).Values();
    forall k ensures TermMatches(values, k, false) <==> PromptHas(e, k) {
      if PromptHas(e, k) {
        if e.positive != "" && Contains(Lower(e.positive), Lower(k)) {
          assert values[0] == e.positive;
        } else {
          assert values[1] == e.negative;
        }
      }
    }
  }

  /** The image at `path` has metadata whose LoRA names contain `lora`. */
  predicate FileHasLora(results: CheckpointSorter.Results, path: string, dumps: Graph -> string, lora: string)
    requires SearchableResult(CheckpointSorter.MetaOf(results, path), ["lora_name"])
  {
    var m := CheckpointSorter.MetaOf(results, path);
    CheckpointSorter.HasMetadata(m) && LoraHas(Extract(m.value, dumps(m.value)), lora)
  }

  /** The image at `path` has metadata whose prompts contain the keywords:
      every one of them, or some. */
  predicate FileHasKeywords(results: CheckpointSorter.Results, path: string, dumps: Graph -> string,
                            keywords: seq<string>, requireAll: bool)
    requires SearchableResult(CheckpointSorter.MetaOf(results, path), PromptFields)
  {
    var m := CheckpointSorter.MetaOf(results, path);
    CheckpointSorter.HasMetadata(m) &&
    var e := Extract(m.value, dumps(m.value));
    if requireAll then forall i :: 0 <= i < |keywords| ==> PromptHas(e, keywords[i])
    else exists i :: 0 <= i < |keywords| && PromptHas(e, keywords[i])
  }

  /** `_organize_by_search_terms(matches, terms)`: `organized` is `Organize`
      over some enumeration of the set `matches`. */
  ghost predicate OrganizedFrom(organized: Dict<seq<string>>, matches: set<string>, terms: seq<string>)
  {
    exists listed :: Analyzer.NoDuplicates(listed) && (forall f :: f in listed <==> f in matches) &&
      organized == Organize(listed, terms)
  }

  class MetadataSearchSorter {
    var stats: SearchStats

    constructor()
      ensures stats == SearchStats(0, 0, 0, 0, 0)
    {
      stats := SearchStats(0, 0, 0, 0, 0);
    }

    /** `_search_metadata`: the images whose metadata matches; `dumps`
        renders metadata as JSON. */
    method SearchMetadata(files: seq<string>, results: CheckpointSorter.Results, terms: seq<string>, mode: string,
                          fields: seq<string>, caseSensitive: bool, dumps: Graph -> string)
      returns (matches: set<string>)
      requires forall f :: f in files ==> SearchableResult(CheckpointSorter.MetaOf(results, f), fields)
      modifies this
      ensures forall f :: f in matches <==> f in files && FileMatches(results, f, dumps, terms, mode, fields, caseSensitive)
      ensures stats == old(stats).(imagesMatched := |matches|)
    {
      matches := {};
      var i := 0;
      while i < |files|
        invariant 0 <= i <= |files|
        invariant matches == MatchSet(files[..i], results, dumps, terms, mode, fields, caseSensitive)
        invariant stats == old(stats)
      {
        var f := files[i];
        MatchSetStep(files, i, results, dumps, terms, mode, fields, caseSensitive);
        if FileMatches(results, f, dumps, terms, mode, fields, caseSensitive) {
          matches := matches + {f};
        }
        i := i + 1;
      }
      assert files[..i] == files;
      MatchSetSpec(files, results, dumps, terms, mode, fields, caseSensitive);
      stats := stats.(imagesMatched := |matches|);
    }

    /** `_organize_by_search_terms`, over the matches in the order the set
        is enumerated. */
    method OrganizeBySearchTerms(matches: seq<string>, terms: seq<string>) returns (organized: Dict<seq<string>>)
      ensures organized == Organize(matches, terms)
    {
      organized := Dict([], map[]);
      var i := 0;
      while i < |terms|
        invariant 0 <= i <= |terms|
        invariant organized == TermFolders(matches, terms[..i])
      {
        var term := terms[i];
        var cleanTerm := CleanTerm(term);
        var termMatches := CollectNameMatches(matches, term);
        if termMatches != [] {
          organized := Put(organized, cleanTerm, termMatches);
        }
        assert terms[..i + 1][..i] == terms[..i];
        i := i + 1;
      }
      assert terms[..i] == terms;
      if organized.order == [] {
        organized := Dict(["search_results"], map["search_results" := matches]);
      }
    }

    /** The inner loop of `_organize_by_search_terms`. */
    method CollectNameMatches(matches: seq<string>, term: string) returns (termMatches: seq<string>)
      ensures termMatches == NameMatches(matches, term)
    {
      termMatches := [];
      var j := 0;
      while j < |matches|
        invariant 0 <= j <= |matches|
        invariant termMatches == NameMatches(matches[..j], term)
      {
        NameMatchesStep(matches, term, j);
        if NameHas(matches[j], term) {
          termMatches := termMatches + [matches[j]];
        }
        j := j + 1;
      }
      assert matches[..j] == matches;
    }

    /** `_create_search_folders`: one folder per name, each counted. */
    method CreateSearchFolders(outDir: string, names: seq<string>) returns (paths: seq<string>)
      modifies this
      ensures |paths| == |names|
      ensures forall i :: 0 <= i < |names| ==> paths[i] == PathJoin(outDir, names[i])
      ensures stats == old(stats).(foldersCreated := old(stats).foldersCreated + |names|)
    {
      paths := [];
      var i := 0;
      while i < |names|
        invariant 0 <= i <= |names|
        invariant |paths| == i
        invariant forall k :: 0 <= k < i ==> paths[k] == PathJoin(outDir, names[k])
        invariant stats == old(stats).(foldersCreated := old(stats).foldersCreated + i)
      {
        paths := paths + [PathJoin(outDir, names[i])];
        stats := stats.(foldersCreated := stats.foldersCreated + 1);
        i := i + 1;
      }
    }

    /** The target path of one file: the renamed name with the folder's
        counter, or the file's own name made free. */
    method Target(existing: set<string>, folder: string, file: string, counter: nat, outDir: string, rename: bool,
                  prefix: string)
      returns (dest: string)
      requires counter >= 1
      ensures dest == Destination(existing, outDir, folder, file, counter - 1, rename, prefix)
    {
      var folderPath := PathJoin(outDir, folder);
      if rename {
        dest := PathJoin(folderPath, RenamedName(prefix, folder, counter, SplitExt(file).1));
      } else {
        dest := ResolveNumbered(PathJoin(folderPath, Basename(file)), existing);
      }
    }

    /** The files of one folder. With renaming, the folder's counter runs
        from 1 to one past the number of files; no other counter changes. */
    method SortFolder(st0: Sorting, folder: string, files: seq<string>, outDir: string, move: bool, rename: bool,
                      prefix: string, counters0: map<string, nat>)
      returns (st: Sorting, counters: map<string, nat>)
      requires rename ==> folder in counters0 && counters0[folder] == 1
      ensures st == FolderRun(st0, files, Namer(outDir, folder, rename, prefix), move)
      ensures rename ==> folder in counters && counters[folder] == |files| + 1
      ensures forall k :: k in counters0 && k != folder ==> k in counters && counters[k] == counters0[k]
    {
      st, counters := st0, counters0;
      ghost var name := Namer(outDir, folder, rename, prefix);
      var j := 0;
      while j < |files|
        invariant 0 <= j <= |files|
        invariant st == FolderRun(st0, files[..j], name, move)
        invariant rename ==> folder in counters && counters[folder] == j + 1
        invariant forall k :: k in counters0 && k != folder ==> k in counters && counters[k] == counters0[k]
      {
        var dest;
        if rename {
          var counter := counters[folder];
          dest := Target(st.existing, folder, files[j], counter, outDir, rename, prefix);
          counters := counters[folder := counter + 1];
        } else {
          dest := Target(st.existing, folder, files[j], j + 1, outDir, rename, prefix);
        }
        assert dest == name(st.existing, files[j], j);
        FolderRunSnoc(st0, files, name, move, j);
        st := Transfer(st, files[j], dest, move);
        j := j + 1;
      }
      assert files[..j] == files;
    }

    /** The loops of `_sort_search_results`: with renaming every folder's
        counter starts at 1, then the folders are sorted in key order. */
    method SortAll(organized: Dict<seq<string>>, outDir: string, move: bool, rename: bool, prefix: string,
                   existing0: set<string>)
      returns (st: Sorting)
      requires organized.Valid()
      ensures st == Run(Sorting([], existing0, 0), outDir, organized.order, organized.vals, move, rename, prefix)
    {
      var order, vals := organized.order, organized.vals;
      var counters: map<string, nat> := map[];
      if rename {
        var i := 0;
        while i < |order|
          invariant 0 <= i <= |order|
          invariant forall k :: 0 <= k < i ==> order[k] in counters && counters[order[k]] == 1
        {
          counters := counters[order[i] := 1];
          i := i + 1;
        }
      }
      st := Sorting([], existing0, 0);
      var q := 0;
      while q < |order|
        invariant 0 <= q <= |order|
        invariant st == Run(Sorting([], existing0, 0), outDir, order[..q], vals, move, rename, prefix)
        invariant rename ==> forall k :: q <= k < |order| ==> order[k] in counters && counters[order[k]] == 1
      {
        var folder := order[q];
        RunSnoc(Sorting([], existing0, 0), outDir, order, vals, move, rename, prefix, q);
        st, counters := SortFolder(st, folder, vals[folder], outDir, move, rename, prefix, counters);
        forall k | q < k < |order| && rename ensures order[k] in counters && counters[order[k]] == 1 {
          assert order[k] != folder;
        }
        q := q + 1;
      }
      assert order[..q] == order;
    }

    /** `_sort_search_results`: copies or moves every file of every folder;
        `existing` is the set of paths that exist. */
    method SortSearchResults(organized: Dict<seq<string>>, outDir: string, move: bool, rename: bool, prefix: string,
                             existing0: set<string>)
      returns (ops: seq<Op>, existing: set<string>)
      requires organized.Valid()
      modifies this
      ensures var r := Run(Sorting([], existing0, 0), outDir, organized.order, organized.vals, move, rename, prefix);
        ops == r.ops && existing == r.existing &&
        stats == old(stats).(imagesSorted := old(stats).imagesSorted + r.sorted)
    {
      var st := SortAll(organized, outDir, move, rename, prefix, existing0);
      ops, existing := st.ops, st.existing;
      stats := stats.(imagesSorted := stats.imagesSorted + st.sorted);
    }

    /** `_find_png_files` over the entries of `os.listdir(dir)`. */
    method FindPngFiles(dir: string, names: seq<string>) returns (files: seq<string>)
      ensures files == PngFiles(dir, names)
    {
      files := [];
      var i := 0;
      while i < |names|
        invariant 0 <= i <= |names|
        invariant files == PngFiles(dir, names[..i])
      {
        if IsPng(names[i]) {
          files := files + [PathJoin(dir, names[i])];
        }
        assert names[..i + 1][..i] == names[..i];
        i := i + 1;
      }
      assert names[..i] == names;
    }

    /** `list(matches)`: the set in the order Python enumerates it, which
        the model leaves open. */
    method Listing(matches: set<string>) returns (r: seq<string>)
      ensures Analyzer.NoDuplicates(r)
      ensures forall f :: f in r <==> f in matches
    {
      r := [];
      var rest := matches;
      while rest != {}
        invariant rest <= matches
        invariant Analyzer.NoDuplicates(r)
        invariant forall f :: f in r <==> f in matches && f !in rest
        decreases |rest|
      {
        var f :| f in rest;
        r := r + [f];
        rest := rest - {f};
      }
    }

    /** `search_and_sort` for the images `files` found in the source
        directory, with `results` their extracted metadata and `existing`
        the paths that exist. */
    method SearchAndSort(files: seq<string>, results: CheckpointSorter.Results, outDir: string, terms: seq<string>,
                         mode: string, fields: seq<string>, move: bool, createSubfolders: bool, caseSensitive: bool,
                         rename: bool, prefix: string, dumps: Graph -> string, existing0: set<string>)
      returns (matches: set<string>, organized: Dict<seq<string>>, ops: seq<Op>, existing: set<string>)
      requires forall f :: f in files ==> SearchableResult(CheckpointSorter.MetaOf(results, f), fields)
      modifies this
      ensures stats.searchTermsUsed == |terms| && stats.totalImages == |files|
      ensures files == [] ==>
        matches == {} && ops == [] && existing == existing0 &&
        stats == old(stats).(searchTermsUsed := |terms|, totalImages := 0)
      ensures files != [] ==>
        (forall f :: f in matches <==> f in files && FileMatches(results, f, dumps, terms, mode, fields, caseSensitive)) &&
        stats.imagesMatched == |matches| && organized.Valid() &&
        stats.foldersCreated == old(stats).foldersCreated + |organized.order|
      ensures files != [] && !createSubfolders ==>
        organized.order == ["search_results"] && (forall f :: f in organized.vals["search_results"] <==> f in matches)
      ensures files != [] && createSubfolders ==> OrganizedFrom(organized, matches, terms)
      ensures files != [] ==>
        var r := Run(Sorting([], existing0, 0), outDir, organized.order, organized.vals, move, rename, prefix);
        ops == r.ops && existing == r.existing && stats.imagesSorted == old(stats).imagesSorted + r.sorted
    {
      stats := stats.(searchTermsUsed := |terms|);
      stats := stats.(totalImages := |files|);
      matches, organized, ops, existing := {}, Dict([], map[]), [], existing0;
      if files == [] {
        return;
      }
      matches := SearchMetadata(files, results, terms, mode, fields, caseSensitive, dumps);
      var listed := Listing(matches);
      if createSubfolders {
        organized := OrganizeBySearchTerms(listed, terms);
        assert OrganizedFrom(organized, matches, terms);
      } else {
        organized := Dict(["search_results"], map["search_results" := listed]);
      }
      var _ := CreateSearchFolders(outDir, organized.order);
      ops, existing := SortSearchResults(organized, outDir, move, rename, prefix, existing0);
    }

    /** `search_specific_lora`: one LoRA name, "any" mode, only the
        `lora_name` field, ignoring case, every match in `search_results`. */
    method SearchSpecificLora(files: seq<string>, results: CheckpointSorter.Results, outDir: string, lora: string,
                              move: bool, dumps: Graph -> string, existing0: set<string>)
      returns (matches: set<string>, organized: Dict<seq<string>>, ops: seq<Op>, existing: set<string>)
      requires forall f :: f in files ==> SearchableResult(CheckpointSorter.MetaOf(results, f), ["lora_name"])
      modifies this
      ensures stats.searchTermsUsed == 1 && stats.totalImages == |files|
      ensures files == [] ==> matches == {} && ops == [] && existing == existing0
      ensures files != [] ==>
        (forall f :: f in matches <==> f in files && FileHasLora(results, f, dumps, lora)) &&
        organized.order == ["search_results"] && "search_results" in organized.vals &&
        (forall f :: f in organized.vals["search_results"] <==> f in matches)
      ensures files != [] ==>
        organized.Valid() &&
        var r := Run(Sorting([], existing0, 0), outDir, organized.order, organized.vals, move, false, "");
        ops == r.ops && existing == r.existing
    {
      matches, organized, ops, existing :=
        SearchAndSort(files, results, outDir, [lora], "any", ["lora_name"], move, false, false, false, "", dumps,
                      existing0);
      forall f | f in files
        ensures FileMatches(results, f, dumps, [lora], "any", ["lora_name"], false) <==> FileHasLora(results, f, dumps, lora)
      {
        var m := CheckpointSorter.MetaOf(results, f);
        if CheckpointSorter.HasMetadata(m) {
          LoraSearch(Extract(m.value, dumps(m.value)), lora);
        }
      }
    }

    /** `search_by_prompt_keywords`: the keywords in both prompts, "all"
        mode when every keyword is required and "any" mode otherwise,
        ignoring case, one folder per keyword. */
    method SearchByPromptKeywords(files: seq<string>, results: CheckpointSorter.Results, outDir: string,
                                  keywords: seq<string>, move: bool, requireAll: bool, dumps: Graph -> string,
                                  existing0: set<string>)
      returns (matches: set<string>, organized: Dict<seq<string>>, ops: seq<Op>, existing: set<string>)
      requires forall f :: f in files ==> SearchableResult(CheckpointSorter.MetaOf(results, f), PromptFields)
      modifies this
      ensures stats.searchTermsUsed == |keywords| && stats.totalImages == |files|
      ensures files == [] ==> matches == {} && ops == [] && existing == existing0
      ensures files != [] ==>
        (forall f :: f in matches <==> f in files && FileHasKeywords(results, f, dumps, keywords, requireAll)) &&
        organized.Valid()
      ensures files != [] ==> OrganizedFrom(organized, matches, keywords)
      ensures files != [] ==>
        organized.Valid() &&
        var r := Run(Sorting([], existing0, 0), outDir, organized.order, organized.vals, move, false, "");
        ops == r.ops && existing == r.existing
    {
      var mode := if requireAll then "all" else "any";
      matches, organized, ops, existing :=
        SearchAndSort(files, results, outDir, keywords, mode, PromptFields, move, true, false, false, "", dumps,
                      existing0);
      forall f | f in files
        ensures FileMatches(results, f, dumps, keywords, mode, PromptFields, false) <==>
                FileHasKeywords(results, f, dumps, keywords, requireAll)
      {
        var m := CheckpointSorter.MetaOf(results, f);
        if CheckpointSorter.HasMetadata(m) {
          PromptSearch(Extract(m.value, dumps(m.value)), keywords, requireAll);
        }
      }
    }
  }
}
