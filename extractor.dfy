/** `MetadataExtractor` (core/metadata_engine.py): reads the workflow JSON
    out of an image's `info` slots, keeping outcome counters and a list of
    failed files. Opening the image and decoding JSON are parameters. */
module Extractor {
  import opened Text
  import opened Workflow

  /** A value of the image's `info` dictionary: a `str`, a `bytes` value
      (kept as the text it decodes to) or some other object, kept with its
      `repr` and truth value. */
  datatype Slot = Text(s: string) | Bytes(data: string) | Other(repr: string, truthy: bool)

  predicate SlotTruthy(v: Slot)
  {
    match v
    case Text(s) => s != ""
    case Bytes(d) => d != ""
    case Other(_, t) => t
  }

  /** What opening a path gives: the `info` dictionary, or the `OSError` or
      `MemoryError` that `Image.open` raised. */
  datatype Opening = Opened(info: map<string, Slot>) | AccessError | OutOfMemory

  /** What `json.loads` gives: an object (a workflow) or any other JSON
      value; `NotObject(VNull)` is the `None` that `null` decodes to. */
  datatype Document = Object(graph: Graph) | NotObject(value: Value)

  /** The value returned: a decoded document, or a slot value returned
      without decoding. */
  datatype Metadata = Decoded(doc: Document) | AsIs(slot: Slot)

  /** The counter a call increments. */
  datatype Counter = Success | NoMetadata | Corrupted | MemoryFailure | Failed
  {
    /** Outcomes that also append the path to `failed_files`. */
    predicate IsFailure() { this == Corrupted || this == MemoryFailure || this == Failed }
  }

  datatype Outcome = Outcome(result: Option<Metadata>, counter: Counter)

  /** `json.loads`: `None` where it raises `JSONDecodeError`. */
  type Decoder = string -> Option<Document>

  /** `json.loads` on a `prompt` or `parameters` value: text and bytes are
      decoded; any other object raises `TypeError`. */
  function DecodePrimary(v: Slot, decode: Decoder): Option<Document>
  {
    match v
    case Text(s) => decode(s)
    case Bytes(d) => decode(d)
    case Other(_, _) => None
  }

  /** A truthy `prompt` or `parameters` value decides the call: there is no
      fallback after a decoding error, which reaches the generic handler. */
  function Primary(v: Slot, decode: Decoder): (o: Outcome)
    ensures o.result.Some? <==> o.counter == Success
  {
    match DecodePrimary(v, decode)
    case Some(g) => Outcome(Some(Decoded(g)), Success)
    case None => Outcome(None, Failed)
  }

  const FallbackFields: seq<string> := ["workflow", "extra_pnginfo", "exif"]

  /** The first of `fields` with a usable value: a string that decodes, or a
      truthy value that is not a string, returned as it is. */
  function Fallback(info: map<string, Slot>, fields: seq<string>, decode: Decoder): (r: Option<Metadata>)
    ensures r.Some? ==> exists k :: 0 <= k < |fields| && fields[k] in info && SlotTruthy(info[fields[k]])
  {
    if fields == [] then None
    else
      var f := fields[0];
      var rest := Fallback(info, fields[1..], decode);
      if f in info && SlotTruthy(info[f]) then
        var v := info[f];
        if !v.Text? then Some(AsIs(v))
        else match decode(v.s)
          case Some(g) => Some(Decoded(g))
          case None =>
            assert rest.Some? ==> exists k :: 1 <= k < |fields| && fields[k] in info && SlotTruthy(info[fields[k]]) by {
              if rest.Some? {
                var k :| 0 <= k < |fields[1..]| && fields[1..][k] in info && SlotTruthy(info[fields[1..][k]]);
                assert fields[k + 1] == fields[1..][k];
              }
            }
            rest
      else
        assert rest.Some? ==> exists k :: 1 <= k < |fields| && fields[k] in info && SlotTruthy(info[fields[k]]) by {
          if rest.Some? {
            var k :| 0 <= k < |fields[1..]| && fields[1..][k] in info && SlotTruthy(info[fields[1..][k]]);
            assert fields[k + 1] == fields[1..][k];
          }
        }
        rest
  }

  /** What `extract_single` returns and which counter it increments, for
      each way opening the file can go. */
  function Extraction(o: Opening, decode: Decoder): (r: Outcome)
    ensures r.result.Some? <==> r.counter == Success
  {
    match o
    case AccessError => Outcome(None, Corrupted)
    case OutOfMemory => Outcome(None, MemoryFailure)
    case Opened(info) =>
      if "prompt" in info && SlotTruthy(info["prompt"]) then Primary(info["prompt"], decode)
      else if "parameters" in info && SlotTruthy(info["parameters"]) then Primary(info["parameters"], decode)
      else match Fallback(info, FallbackFields, decode)
        case Some(m) => Outcome(Some(m), Success)
        case None => Outcome(None, NoMetadata)
  }

  /** A `prompt` value that does not decode is a failed extraction, whatever
      the later slots hold. */
  lemma PromptFailureNotRecovered(info: map<string, Slot>, decode: Decoder)
    requires "prompt" in info && info["prompt"].Text? && info["prompt"].s != ""
    requires decode(info["prompt"].s).None?
    ensures Extraction(Opened(info), decode) == Outcome(None, Failed)
  {
  }

  /** Without `prompt` and `parameters`, an undecodable `workflow` text is
      skipped in favour of a later slot. */
  lemma FallbackSkipsUndecodable(info: map<string, Slot>, decode: Decoder)
    requires "prompt" !in info && "parameters" !in info
    requires "workflow" in info && info["workflow"].Text? && decode(info["workflow"].s).None?
    requires "extra_pnginfo" in info && info["extra_pnginfo"].Bytes? && info["extra_pnginfo"].data != ""
    ensures Extraction(Opened(info), decode) == Outcome(Some(AsIs(info["extra_pnginfo"])), Success)
  {
    assert FallbackFields[1..][0] == "extra_pnginfo";
    assert Fallback(info, FallbackFields, decode) == Fallback(info, FallbackFields[1..], decode);
  }

  /** A `prompt` that decodes to `null` counts as a success although the
      value returned is `None`. */
  lemma NullPromptCountsSuccess(info: map<string, Slot>, decode: Decoder)
    requires "prompt" in info && info["prompt"].Text? && info["prompt"].s != ""
    requires decode(info["prompt"].s) == Some(NotObject(VNull))
    ensures Extraction(Opened(info), decode) == Outcome(Some(Decoded(NotObject(VNull))), Success)
  {
  }

  /** No slot with a truthy value means no metadata. */
  lemma NoTruthySlotMeansNoMetadata(info: map<string, Slot>, decode: Decoder)
    requires forall f :: f in info ==> !SlotTruthy(info[f])
    ensures Extraction(Opened(info), decode) == Outcome(None, NoMetadata)
  {
  }

  /** How many of `paths` end with counter `c`. */
  function Tally(paths: seq<string>, open: string -> Opening, decode: Decoder, c: Counter): (n: nat)
    ensures n <= |paths|
  {
    if paths == [] then 0
    else
      Tally(paths[..|paths| - 1], open, decode, c)
        + if Extraction(open(paths[|paths| - 1]), decode).counter == c then 1 else 0
  }

  /** The `failed_files` entries that `paths` add. */
  function FailureLog(paths: seq<string>, open: string -> Opening, decode: Decoder): seq<(string, Counter)>
  {
    if paths == [] then []
    else
      var p := paths[|paths| - 1];
      var c := Extraction(open(p), decode).counter;
      FailureLog(paths[..|paths| - 1], open, decode) + if c.IsFailure() then [(p, c)] else []
  }

  /** The `stats` dictionary. */
  datatype Stats = Stats(totalProcessed: nat, successfulExtractions: nat, failedExtractions: nat,
                         corruptedFiles: nat, noMetadataFiles: nat, memoryErrors: nat)
  {
    /** The counter for outcome `c`. */
    function Count(c: Counter): nat
    {
      match c
      case Success => successfulExtractions
      case NoMetadata => noMetadataFiles
      case Corrupted => corruptedFiles
      case MemoryFailure => memoryErrors
      case Failed => failedExtractions
    }

    /** One more call that ended with `c`. */
    function Bump(c: Counter): (r: Stats)
      ensures r.Count(c) == Count(c) + 1
      ensures forall d :: d != c ==> r.Count(d) == Count(d)
      ensures r.totalProcessed == totalProcessed
    {
      match c
      case Success => this.(successfulExtractions := successfulExtractions + 1)
      case NoMetadata => this.(noMetadataFiles := noMetadataFiles + 1)
      case Corrupted => this.(corruptedFiles := corruptedFiles + 1)
      case MemoryFailure => this.(memoryErrors := memoryErrors + 1)
      case Failed => this.(failedExtractions := failedExtractions + 1)
    }
  }

  const ZeroStats := Stats(0, 0, 0, 0, 0, 0)

  /** The statistics after `extract_batch(paths)`, starting from `s`. */
  function AfterBatch(s: Stats, paths: seq<string>, open: string -> Opening, decode: Decoder): Stats
  {
    if paths == [] then s
    else
      var t := AfterBatch(s, paths[..|paths| - 1], open, decode);
      t.(totalProcessed := t.totalProcessed + 1).Bump(Extraction(open(paths[|paths| - 1]), decode).counter)
  }

  /** One more path extends the statistics and the failure log by its own
      extraction. */
  lemma BatchStep(s: Stats, log: seq<(string, Counter)>, paths: seq<string>, open: string -> Opening,
                  decode: Decoder, i: nat)
    requires i < |paths|
    ensures var o := Extraction(open(paths[i]), decode);
      var t := AfterBatch(s, paths[..i], open, decode);
      AfterBatch(s, paths[..i + 1], open, decode) == t.(totalProcessed := t.totalProcessed + 1).Bump(o.counter) &&
      log + FailureLog(paths[..i + 1], open, decode) ==
        log + FailureLog(paths[..i], open, decode) + (if o.counter.IsFailure() then [(paths[i], o.counter)] else [])
    ensures paths[..i + 1] == paths[..i] + [paths[i]]
  {
    assert paths[..i + 1][..i] == paths[..i];
  }

  /** A batch adds its length to `total_processed` and, to each outcome
      counter, the number of its files with that outcome. */
  lemma {:induction false} AfterBatchCounts(s: Stats, paths: seq<string>, open: string -> Opening, decode: Decoder, c: Counter)
    ensures AfterBatch(s, paths, open, decode).totalProcessed == s.totalProcessed + |paths|
    ensures AfterBatch(s, paths, open, decode).Count(c) == s.Count(c) + Tally(paths, open, decode, c)
  {
    if paths != [] {
      AfterBatchCounts(s, paths[..|paths| - 1], open, decode, c);
    }
  }

  /** The counters of a batch add up to its length: every file counts once. */
  lemma {:induction false} TallyTotal(paths: seq<string>, open: string -> Opening, decode: Decoder)
    ensures Tally(paths, open, decode, Success) + Tally(paths, open, decode, NoMetadata)
      + Tally(paths, open, decode, Corrupted) + Tally(paths, open, decode, MemoryFailure)
      + Tally(paths, open, decode, Failed) == |paths|
  {
    if paths != [] {
      TallyTotal(paths[..|paths| - 1], open, decode);
    }
  }

  class MetadataExtractor {
    var stats: Stats
    var failedFiles: seq<(string, Counter)>

    constructor()
      ensures stats == ZeroStats && failedFiles == []
    {
      stats := ZeroStats;
      failedFiles := [];
    }

    /** Increments the counter for `c`, logging the path when `c` is a
        failure. */
    method Record(path: string, c: Counter)
      modifies this
      ensures stats == old(stats).Bump(c)
      ensures failedFiles == old(failedFiles) + if c.IsFailure() then [(path, c)] else []
    {
      stats := stats.Bump(c);
      if c.IsFailure() {
        failedFiles := failedFiles + [(path, c)];
      }
    }

    /** `extract_single`: exactly one outcome counter goes up by one. */
    method ExtractSingle(path: string, open: string -> Opening, decode: Decoder) returns (r: Option<Metadata>)
      modifies this
      ensures var o := Extraction(open(path), decode);
        r == o.result && stats == old(stats).Bump(o.counter)
        && failedFiles == old(failedFiles) + if o.counter.IsFailure() then [(path, o.counter)] else []
    {
      var opening := open(path);
      match opening {
        case AccessError =>
          Record(path, Corrupted);
          return None;
        case OutOfMemory =>
          Record(path, MemoryFailure);
          return None;
        case Opened(info) =>
          if "prompt" in info && SlotTruthy(info["prompt"]) {
            var o := Primary(info["prompt"], decode);
            Record(path, o.counter);
            return o.result;
          }
          if "parameters" in info && SlotTruthy(info["parameters"]) {
            var o := Primary(info["parameters"], decode);
            Record(path, o.counter);
            return o.result;
          }
          var k := 0;
          while k < |FallbackFields|
            invariant 0 <= k <= |FallbackFields|
            invariant Fallback(info, FallbackFields, decode) == Fallback(info, FallbackFields[k..], decode)
          {
            var field := FallbackFields[k];
            assert FallbackFields[k..][1..] == FallbackFields[k + 1..];
            if field in info && SlotTruthy(info[field]) {
              var data := info[field];
              if !data.Text? {
                Record(path, Success);
                return Some(AsIs(data));
              }
              var decoded := decode(data.s);
              if decoded.Some? {
                Record(path, Success);
                return Some(Decoded(decoded.value));
              }
            }
            k := k + 1;
          }
          Record(path, NoMetadata);
          return None;
      }
    }

    /** `extract_batch`: every path is processed once, in order, and mapped
        to its result. */
    method ExtractBatch(paths: seq<string>, open: string -> Opening, decode: Decoder)
      returns (results: map<string, Option<Metadata>>)
      modifies this
      ensures forall p :: p in results <==> p in paths
      ensures forall p :: p in results ==> results[p] == Extraction(open(p), decode).result
      ensures stats == AfterBatch(old(stats), paths, open, decode)
      ensures failedFiles == old(failedFiles) + FailureLog(paths, open, decode)
    {
      results := map[];
      var i := 0;
      while i < |paths|
        invariant 0 <= i <= |paths|
        invariant forall p :: p in results <==> p in paths[..i]
        invariant forall p :: p in results ==> results[p] == Extraction(open(p), decode).result
        invariant stats == AfterBatch(old(stats), paths[..i], open, decode)
        invariant failedFiles == old(failedFiles) + FailureLog(paths[..i], open, decode)
      {
        var path := paths[i];
        BatchStep(old(stats), old(failedFiles), paths, open, decode, i);
        stats := stats.(totalProcessed := stats.totalProcessed + 1);
        var metadata := ExtractSingle(path, open, decode);
        results := results[path := metadata];
        i := i + 1;
      }
      assert paths[..i] == paths;
    }

    /** `reset_statistics`. */
    method ResetStatistics()
      modifies this
      ensures stats == ZeroStats && failedFiles == []
    {
      stats := ZeroStats;
      failedFiles := [];
    }
  }
}
