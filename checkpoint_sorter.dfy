/** Sorting images into one folder per base checkpoint: grouping by the
    primary checkpoint, folder-name cleaning, LoRA signature simplification,
    conflict suffixes and sequential renaming. */
module CheckpointSorter {
  import opened Text
  import opened Workflow
  import Analyzer
  import Formatter
  import opened Paths
  import opened Probing

  /** `(file_path, rel_path)`: an image and its sub-folder below the source
      directory ("" when the structure is not preserved). */
  type FileRef = (string, string)

  /** `metadata_results`: the graph extracted for each path. */
  type Results = map<string, Option<Graph>>

  /** `metadata_results.get(file_path)`. */
  function MetaOf(results: Results, path: string): (m: Option<Graph>)
    ensures path !in results ==> m.None?
  {
    if path in results then results[path] else None
  }

  /** Python's `if metadata:`: an empty graph counts as no metadata. */
  predicate HasMetadata(m: Option<Graph>)
  {
    m.Some? && m.value != []
  }

  /** What grouping needs of a graph: `extract_primary_checkpoint` reads
      every entry as a dictionary, and `_clean_checkpoint_name` needs a
      string when the checkpoint is truthy. */
  predicate Classifiable(m: Option<Graph>)
  {
    HasMetadata(m) ==>
      AllNodes(m.value) &&
      (Truthy(Analyzer.ExtractPrimaryCheckpoint(m.value)) ==> Analyzer.ExtractPrimaryCheckpoint(m.value).VStr?)
  }

  /** The grouping signature of one file, `"None"` without metadata. */
  function SignatureOf(m: Option<Graph>): (r: Value)
    requires HasMetadata(m) ==> AllNodes(m.value) && Formatter.AllText(Formatter.LoraLoaderNames(m.value))
    ensures Truthy(r)
  {
    if HasMetadata(m) then Formatter.GroupingSignature(m.value) else VStr("None")
  }

  predicate AllClassifiable(files: seq<FileRef>, results: Results)
  {
    forall i :: 0 <= i < |files| ==> Classifiable(MetaOf(results, files[i].0))
  }

  // ---------------------------------------------------------------------
  // Folder names
  // ---------------------------------------------------------------------

  /** The characters `_clean_checkpoint_name` turns into `_`. */
  const Unsafe: set<char> := {'<', '>', ':', '"', '|', '?', '*', '/', '\\'}

  /** `_clean_checkpoint_name`: the stem of the last path component, with
      unsafe characters replaced by `_`, cut to 50 characters. */
  function CleanCheckpointName(path: string): (r: string)
    ensures |r| <= 50
    ensures forall i :: 0 <= i < |r| ==> r[i] !in Unsafe
  {
    var name := SafeChars(Stem(PathName(path)));
    var r := Take(name, 50);
    assert forall i :: 0 <= i < |r| ==> r[i] == name[i];
    r
  }

  /** `re.sub(r'[<>:"|?*]', '_', ...)` after both separators became `_`. */
  function SafeChars(s: string): (r: string)
    ensures forall i :: 0 <= i < |r| ==> r[i] !in Unsafe
    ensures (forall i :: 0 <= i < |s| ==> s[i] !in Unsafe) ==> r == s
  {
    MapCharsAvoids(s, Unsafe, '_');
    MapChars(s, Unsafe, '_')
  }

  /** A directory prefix and the extension are dropped; a safe stem of at
      most 50 characters is kept as it is. */
  lemma CleanCheckpointNameOfPath(dir: string, stem: string, ext: string)
    requires stem != "" && ext != "" && '.' !in ext && '/' !in ext
    requires |stem| <= 50 && forall i :: 0 <= i < |stem| ==> stem[i] !in Unsafe
    ensures CleanCheckpointName(dir + "/" + stem + "." + ext) == stem
  {
    var name := stem + "." + ext;
    assert dir + "/" + stem + "." + ext == dir + "/" + name;
    assert '/' !in name by {
      assert forall i :: 0 <= i < |stem| ==> stem[i] != '/';
    }
    PathNameOfChild(dir, name);
    StemOfDotted(stem, ext);
  }

  // ---------------------------------------------------------------------
  // LoRA signature simplification
  // ---------------------------------------------------------------------

  /** The name part of one `name@strength` piece, without `.safetensors`,
      cut to 15 characters. */
  function LoraNamePart(piece: string): (r: string)
    ensures |r| <= 15
  {
    Take(Replace(Split(piece, '@')[0], ".safetensors", ""), 15)
  }

  /** The names of the pieces that contain `@`, in order. */
  function SimplifiedNames(pieces: seq<string>): (r: seq<string>)
    ensures forall k :: 0 <= k < |r| ==> |r[k]| <= 15
    ensures r == [] <==> forall k :: 0 <= k < |pieces| ==> '@' !in pieces[k]
  {
    if pieces == [] then []
    else (if '@' in pieces[0] then [LoraNamePart(pieces[0])] else []) + SimplifiedNames(pieces[1..])
  }

  /** Only pieces holding `@` contribute. */
  lemma {:induction false} SimplifiedNamesAppend(a: seq<string>, b: seq<string>)
    ensures SimplifiedNames(a + b) == SimplifiedNames(a) + SimplifiedNames(b)
  {
    if a != [] {
      assert (a + b)[1..] == a[1..] + b && (a + b)[0] == a[0];
      SimplifiedNamesAppend(a[1..], b);
      var h := if '@' in a[0] then [LoraNamePart(a[0])] else [];
      var x, y := SimplifiedNames(a[1..]), SimplifiedNames(b);
      assert SimplifiedNames(a + b) == h + (x + y);
      assert SimplifiedNames(a) == h + x;
      assert h + (x + y) == (h + x) + y;
    } else {
      assert a + b == b;
    }
  }

  lemma PiecesWithoutAt(signature: string)
    ensures '@' !in signature ==> forall k :: 0 <= k < |Split(signature, '|')| ==> '@' !in Split(signature, '|')[k]
  {
    var pieces := Split(signature, '|');
    forall k | 0 <= k < |pieces| && '@' in pieces[k] ensures '@' in signature {
      SplitPieceChars(signature, '|', k, '@');
    }
  }

  /** `_simplify_lora_signature`. */
  function SimplifyLoraSignature(signature: string): (r: string)
    ensures 0 < |r| <= 40
    ensures '@' !in signature ==> r == "CustomLoRAs"
  {
    var pieces := Split(signature, '|');
    var result := Take(Join("_", SimplifiedNames(pieces)), 40);
    PiecesWithoutAt(signature);
    if result != "" then result else "CustomLoRAs"
  }

  /** A single `name@strength` signature simplifies to the name itself. */
  lemma SimplifySingle(name: string, strength: string)
    requires 0 < |name| <= 15 && '@' !in name && '|' !in name && '|' !in strength
    requires !Contains(name, ".safetensors")
    ensures SimplifyLoraSignature(name + "@" + strength) == name
  {
    var s := name + "@" + strength;
    assert s == name + ['@'] + strength;
    assert '|' !in s;
    assert Split(s, '|') == [s];
    SplitFirst(name, '@', strength);
    assert LoraNamePart(s) == name;
    assert SimplifiedNames([s]) == [name] + SimplifiedNames([]);
  }

  // ---------------------------------------------------------------------
  // Grouping
  // ---------------------------------------------------------------------

  /** Where `_group_by_checkpoint` sends one file. */
  datatype Kind = Checkpoint(folder: string) | UnknownCheckpoint | NoMetadata

  function KindOf(m: Option<Graph>): (k: Kind)
    requires Classifiable(m)
    ensures k.NoMetadata? <==> !HasMetadata(m)
    ensures k.UnknownCheckpoint? <==> HasMetadata(m) && !Truthy(Analyzer.ExtractPrimaryCheckpoint(m.value))
    ensures k.Checkpoint? ==> |k.folder| <= 50
  {
    if !HasMetadata(m) then NoMetadata
    else
      var p := Analyzer.ExtractPrimaryCheckpoint(m.value);
      if Truthy(p) then Checkpoint(CleanCheckpointName(p.s)) else UnknownCheckpoint
  }

  function FolderOf(k: Kind): string
  {
    match k
    case Checkpoint(name) => name
    case UnknownCheckpoint => "Unknown_Checkpoint"
    case NoMetadata => "No_Metadata"
  }

  function LabelOf(results: Results, f: FileRef): string
    requires Classifiable(MetaOf(results, f.0))
  {
    FolderOf(KindOf(MetaOf(results, f.0)))
  }

  /** `checkpoint_groups`: folder name to files, in insertion order. */
  type Groups = seq<(string, seq<FileRef>)>

  function Keys(groups: Groups): (r: seq<string>)
    ensures |r| == |groups|
  {
    if groups == [] then [] else [groups[0].0] + Keys(groups[1..])
  }

  predicate DistinctSeq(s: seq<string>)
  {
    forall i, j :: 0 <= i < j < |s| ==> s[i] != s[j]
  }

  /** `checkpoint_groups.get(key, [])`. */
  function Members(groups: Groups, key: string): seq<FileRef>
  {
    if groups == [] then []
    else if groups[0].0 == key then groups[0].1
    else Members(groups[1..], key)
  }

  /** `if key not in groups: groups[key] = []` then `groups[key].append(f)`. */
  function AddTo(groups: Groups, key: string, f: FileRef): (r: Groups)
    ensures Keys(r) == if key in Keys(groups) then Keys(groups) else Keys(groups) + [key]
    ensures forall k :: Members(r, k) == Members(groups, k) + (if k == key then [f] else [])
  {
    if groups == [] then [(key, [f])]
    else if groups[0].0 == key then
      var r := [(key, groups[0].1 + [f])] + groups[1..];
      assert r[1..] == groups[1..];
      r
    else
      var rest := AddTo(groups[1..], key, f);
      var r := [groups[0]] + rest;
      assert r[1..] == rest;
      r
  }

  /** The grouping `_group_by_checkpoint` builds, file by file. */
  function Grouped(files: seq<FileRef>, results: Results): Groups
    requires AllClassifiable(files, results)
  {
    if files == [] then []
    else
      var f := files[|files| - 1];
      AddTo(Grouped(files[..|files| - 1], results), LabelOf(results, f), f)
  }

  /** The files labelled `key`, in input order. */
  function Labelled(files: seq<FileRef>, results: Results, key: string): seq<FileRef>
    requires AllClassifiable(files, results)
  {
    if files == [] then []
    else
      var f := files[|files| - 1];
      Labelled(files[..|files| - 1], results, key) + (if LabelOf(results, f) == key then [f] else [])
  }

  /** The files of one kind. */
  function CountOf(files: seq<FileRef>, results: Results, k: Kind): nat
    requires AllClassifiable(files, results)
  {
    if files == [] then 0
    else
      CountOf(files[..|files| - 1], results, k)
        + (if KindOf(MetaOf(results, files[|files| - 1].0)) == k then 1 else 0)
  }

  /** The counter a file of kind `k` bumps. */
  function Tally(s: SortStats, k: Kind): (r: SortStats)
    ensures k.Checkpoint? ==> r == s
  {
    match k
    case Checkpoint(_) => s
    case UnknownCheckpoint => s.(unknownCheckpoint := s.unknownCheckpoint + 1)
    case NoMetadata => s.(failedExtractions := s.failedExtractions + 1)
  }

  /** The counters after grouping `files`. */
  function Tallied(s: SortStats, files: seq<FileRef>, results: Results): SortStats
    requires AllClassifiable(files, results)
  {
    if files == [] then s
    else Tally(Tallied(s, files[..|files| - 1], results), KindOf(MetaOf(results, files[|files| - 1].0)))
  }

  /** Grouping adds the number of files without a checkpoint to
      `unknown_checkpoint`, the number without metadata to
      `failed_extractions`, and changes no other counter. */
  lemma {:induction false} TalliedCounts(s: SortStats, files: seq<FileRef>, results: Results)
    requires AllClassifiable(files, results)
    ensures Tallied(s, files, results) == s.(
      unknownCheckpoint := s.unknownCheckpoint + CountOf(files, results, UnknownCheckpoint),
      failedExtractions := s.failedExtractions + CountOf(files, results, NoMetadata))
  {
    if files != [] {
      var init := files[..|files| - 1];
      assert AllClassifiable(init, results) by {
        forall i | 0 <= i < |init| ensures Classifiable(MetaOf(results, init[i].0)) {
          assert init[i] == files[i];
        }
      }
      TalliedCounts(s, init, results);
    }
  }

  /** Grouping is a partition: each group holds exactly the files with its
      label, in input order; folder names are unique and each is the label
      of some file. */
  lemma {:induction false} GroupedPartition(files: seq<FileRef>, results: Results)
    requires AllClassifiable(files, results)
    ensures DistinctSeq(Keys(Grouped(files, results)))
    ensures forall key :: Members(Grouped(files, results), key) == Labelled(files, results, key)
    ensures forall key :: key in Keys(Grouped(files, results)) <==> Labelled(files, results, key) != []
  {
    if files != [] {
      var n := |files| - 1;
      var init, f := files[..n], files[n];
      assert AllClassifiable(init, results) by {
        forall i | 0 <= i < |init| ensures Classifiable(MetaOf(results, init[i].0)) {
          assert init[i] == files[i];
        }
      }
      GroupedPartition(init, results);
      var g0 := Grouped(init, results);
      var key := LabelOf(results, f);
      assert Grouped(files, results) == AddTo(g0, key, f);
      if key !in Keys(g0) {
        DistinctSnoc(Keys(g0), key);
      }
      LabelledSnoc(files, results);
    }
  }

  lemma DistinctSnoc(ks: seq<string>, key: string)
    requires DistinctSeq(ks) && key !in ks
    ensures DistinctSeq(ks + [key])
  {
    var ks' := ks + [key];
    forall i, j | 0 <= i < j < |ks'| ensures ks'[i] != ks'[j] {
      assert ks'[i] == ks[i];
      if j < |ks| {
        assert ks'[j] == ks[j];
      }
    }
  }

  lemma LabelledSnoc(files: seq<FileRef>, results: Results)
    requires files != [] && AllClassifiable(files, results) && AllClassifiable(files[..|files| - 1], results)
    ensures var init, f := files[..|files| - 1], files[|files| - 1];
      forall key :: Labelled(files, results, key) == Labelled(init, results, key) + (if key == LabelOf(results, f) then [f] else [])
  {
  }

  /** One more file: the grouping and the counters take one step. */
  lemma GroupedStep(files: seq<FileRef>, results: Results, i: nat)
    requires AllClassifiable(files, results) && i < |files|
    ensures AllClassifiable(files[..i], results) && AllClassifiable(files[..i + 1], results)
    ensures Grouped(files[..i + 1], results)
      == AddTo(Grouped(files[..i], results), LabelOf(results, files[i]), files[i])
    ensures forall s :: Tallied(s, files[..i + 1], results) == Tally(Tallied(s, files[..i], results), KindOf(MetaOf(results, files[i].0)))
  {
    var p := files[..i + 1];
    assert p[..i] == files[..i] && p[i] == files[i];
    forall j | 0 <= j < i + 1 ensures Classifiable(MetaOf(results, p[j].0)) {
      assert p[j] == files[j];
    }
  }

  // ---------------------------------------------------------------------
  // Conflict suffixes
  // ---------------------------------------------------------------------

  // ---------------------------------------------------------------------
  // Sorting into folders
  // ---------------------------------------------------------------------

  /** One visit of `_sort_files_to_folders`: a file and its folder. */
  type Visit = (FileRef, string)

  /** The files of one group, each paired with the group's folder. */
  function InFolder(files: seq<FileRef>, folder: string): (r: seq<Visit>)
    ensures |r| == |files|
    ensures forall i :: 0 <= i < |r| ==> r[i] == (files[i], folder)
  {
    if files == [] then [] else InFolder(files[..|files| - 1], folder) + [(files[|files| - 1], folder)]
  }

  function VisitGroup(group: (string, seq<FileRef>), folders: map<string, string>): (r: seq<Visit>)
  {
    if group.0 in folders then InFolder(group.1, folders[group.0]) else []
  }

  /** The files visited in order; groups without a folder are skipped. */
  function Visits(groups: Groups, folders: map<string, string>): seq<Visit>
  {
    if groups == [] then []
    else Visits(groups[..|groups| - 1], folders) + VisitGroup(groups[|groups| - 1], folders)
  }

  /** The file name before conflicts: the n-th visited file becomes
      `prefix_img{n}{ext}` when renaming with a prefix. */
  function TargetName(path: string, n: nat, rename: bool, prefix: string): string
  {
    var filename := Basename(path);
    if rename && prefix != "" then prefix + "_img" + NatToString(n) + SplitExt(filename).1
    else filename
  }

  function TargetPath(v: Visit, n: nat, rename: bool, prefix: string): string
  {
    var name := TargetName(v.0.0, n, rename, prefix);
    if v.0.1 != "" then PathJoin(PathJoin(v.1, v.0.1), name) else PathJoin(v.1, name)
  }

  /** Sequential names never collide: distinct counters give distinct
      names, whatever the extensions. */
  lemma TargetNamesDistinct(p1: string, p2: string, n: nat, m: nat, prefix: string)
    requires n != m && prefix != ""
    ensures TargetName(p1, n, true, prefix) != TargetName(p2, m, true, prefix)
  {
    var e1, e2 := SplitExt(Basename(p1)).1, SplitExt(Basename(p2)).1;
    SequentialNamesDistinct(prefix + "_img", n, m, e1, e2);
  }

  function Dests(moves: seq<(string, string)>): set<string>
  {
    set k | 0 <= k < |moves| :: moves[k].1
  }

  /** Each move took the n-th visited file to the name its target resolves
      to, given the names taken before it. */
  ghost predicate Placed(visits: seq<Visit>, moves: seq<(string, string)>, taken0: set<string>, rename: bool, prefix: string)
  {
    |moves| <= |visits| &&
    forall n :: 0 <= n < |moves| ==> PlacedAt(visits, moves, taken0, rename, prefix, n)
  }

  /** The n-th move took the n-th visited file to the name its target
      resolves to. */
  ghost predicate PlacedAt(visits: seq<Visit>, moves: seq<(string, string)>, taken0: set<string>, rename: bool, prefix: string, n: nat)
    requires n < |moves| <= |visits|
  {
    moves[n].0 == visits[n].0.0 &&
    Resolves(taken0 + Dests(moves[..n]), TargetPath(visits[n], n + 1, rename, prefix), moves[n].1)
  }

  /** How many visits found their target taken. */
  ghost function Conflicts(visits: seq<Visit>, moves: seq<(string, string)>, taken0: set<string>, rename: bool, prefix: string): nat
    requires |moves| <= |visits|
  {
    if moves == [] then 0
    else
      var n := |moves| - 1;
      Conflicts(visits, moves[..n], taken0, rename, prefix)
        + (if TargetPath(visits[n], n + 1, rename, prefix) in taken0 + Dests(moves[..n]) then 1 else 0)
  }

  /** Every destination was free and no two files share one. */
  lemma {:induction false} PlacedFresh(visits: seq<Visit>, moves: seq<(string, string)>, taken0: set<string>, rename: bool, prefix: string)
    requires Placed(visits, moves, taken0, rename, prefix)
    ensures forall n :: 0 <= n < |moves| ==> moves[n].1 !in taken0
    ensures forall i, j :: 0 <= i < j < |moves| ==> moves[i].1 != moves[j].1
  {
    forall n | 0 <= n < |moves| ensures moves[n].1 !in taken0 + Dests(moves[..n]) {
      assert PlacedAt(visits, moves, taken0, rename, prefix, n);
      ResolvesFree(taken0 + Dests(moves[..n]), TargetPath(visits[n], n + 1, rename, prefix), moves[n].1);
    }
    forall i, j | 0 <= i < j < |moves| ensures moves[i].1 != moves[j].1 {
      assert moves[..j][i] == moves[i];
      assert moves[i].1 in Dests(moves[..j]);
    }
  }

  /** The counters of `self.stats`. */
  datatype SortStats = SortStats(
    totalImages: nat, sortedImages: nat, unknownCheckpoint: nat,
    failedExtractions: nat, foldersCreated: nat, duplicatesHandled: nat)

  class CheckpointSorter {
    var stats: SortStats
    /** `checkpoint_folders`: folder name to folder path. */
    var checkpointFolders: map<string, string>

    constructor()
      ensures stats == SortStats(0, 0, 0, 0, 0, 0)
      ensures checkpointFolders == map[]
    {
      stats := SortStats(0, 0, 0, 0, 0, 0);
      checkpointFolders := map[];
    }

    /** `_group_by_checkpoint`. */
    method GroupByCheckpoint(files: seq<FileRef>, results: Results) returns (groups: Groups)
      requires AllClassifiable(files, results)
      modifies this
      ensures groups == Grouped(files, results)
      ensures stats == Tallied(old(stats), files, results)
      ensures checkpointFolders == old(checkpointFolders)
    {
      groups := [];
      var i := 0;
      while i < |files|
        invariant 0 <= i <= |files|
        invariant AllClassifiable(files[..i], results)
        invariant groups == Grouped(files[..i], results)
        invariant stats == Tallied(old(stats), files[..i], results)
        invariant checkpointFolders == old(checkpointFolders)
      {
        var f := files[i];
        var m := MetaOf(results, f.0);
        GroupedStep(files, results, i);
        ghost var kind := KindOf(m);
        if HasMetadata(m) {
          var primary := Analyzer.ExtractPrimaryCheckpoint(m.value);
          if Truthy(primary) {
            assert kind == Checkpoint(CleanCheckpointName(primary.s));
            groups := AddTo(groups, CleanCheckpointName(primary.s), f);
          } else {
            assert kind == UnknownCheckpoint;
            groups := AddTo(groups, "Unknown_Checkpoint", f);
            stats := stats.(unknownCheckpoint := stats.unknownCheckpoint + 1);
          }
        } else {
          assert kind == NoMetadata;
          groups := AddTo(groups, "No_Metadata", f);
          stats := stats.(failedExtractions := stats.failedExtractions + 1);
        }
        i := i + 1;
      }
      assert files[..i] == files;
    }

    /** `_group_by_checkpoint_and_lora`: the grouping signature of every file
        is computed first (it only feeds an unused ranking), then files are
        grouped exactly as `_group_by_checkpoint` does. */
    method GroupByCheckpointAndLora(files: seq<FileRef>, results: Results) returns (groups: Groups)
      requires AllClassifiable(files, results)
      requires forall i :: 0 <= i < |files| && HasMetadata(MetaOf(results, files[i].0)) ==>
        Formatter.AllText(Formatter.LoraLoaderNames(MetaOf(results, files[i].0).value))
      modifies this
      ensures groups == Grouped(files, results)
      ensures stats == Tallied(old(stats), files, results)
      ensures checkpointFolders == old(checkpointFolders)
    {
      // The signature pass of the source: nothing reads its result, but it
      // is where a LoRA name that is not text raises.
      var signatures: seq<Value> := [];
      var i := 0;
      while i < |files|
        invariant 0 <= i <= |files| && |signatures| == i
        invariant forall j :: 0 <= j < i ==> signatures[j] == SignatureOf(MetaOf(results, files[j].0))
      {
        assert Classifiable(MetaOf(results, files[i].0));
        signatures := signatures + [SignatureOf(MetaOf(results, files[i].0))];
        i := i + 1;
      }
      groups := GroupByCheckpoint(files, results);
    }

    /** `_create_checkpoint_folders`: one folder per name below `outputDir`. */
    method CreateCheckpointFolders(outputDir: string, names: seq<string>)
      modifies this
      ensures forall k :: k in checkpointFolders <==> k in old(checkpointFolders) || k in names
      ensures forall k :: k in names ==> checkpointFolders[k] == PathJoin(outputDir, k)
      ensures forall k :: k in old(checkpointFolders) && k !in names ==>
        checkpointFolders[k] == old(checkpointFolders)[k]
      ensures stats == old(stats).(foldersCreated := old(stats).foldersCreated + |names|)
    {
      var i := 0;
      while i < |names|
        invariant 0 <= i <= |names|
        invariant forall k :: k in checkpointFolders <==> k in old(checkpointFolders) || k in names[..i]
        invariant forall k :: k in names[..i] ==> checkpointFolders[k] == PathJoin(outputDir, k)
        invariant forall k :: k in old(checkpointFolders) && k !in names[..i] ==>
          checkpointFolders[k] == old(checkpointFolders)[k]
        invariant stats == old(stats).(foldersCreated := old(stats).foldersCreated + i)
      {
        assert names[..i + 1] == names[..i] + [names[i]];
        checkpointFolders := checkpointFolders[names[i] := PathJoin(outputDir, names[i])];
        stats := stats.(foldersCreated := stats.foldersCreated + 1);
        i := i + 1;
      }
      assert names[..i] == names;
    }

    /** `_resolve_filename_conflict`, with `taken` the existing paths. */
    method ResolveFilenameConflict(dest: string, taken: set<string>) returns (r: string)
      modifies this
      ensures Resolves(taken, dest, r)
      ensures r !in taken
      ensures stats == old(stats).(duplicatesHandled := old(stats).duplicatesHandled + if dest in taken then 1 else 0)
      ensures checkpointFolders == old(checkpointFolders)
    {
      r := ResolveNumbered(dest, taken);
      ResolvedSpec(taken, dest);
      if dest !in taken {
        return;
      }
      stats := stats.(duplicatesHandled := stats.duplicatesHandled + 1);
    }

    /** `_sort_files_to_folders` with every move succeeding: `taken0` are the
        paths that exist beforehand, and each destination exists afterwards.
        `file_count` is `|moves|`: one counter across all groups. */
    method SortFilesToFolders(groups: Groups, rename: bool, prefix: string, taken0: set<string>)
      returns (moves: seq<(string, string)>)
      modifies this
      ensures |moves| == |Visits(groups, old(checkpointFolders))|
      ensures Placement(Visits(groups, old(checkpointFolders)), moves, taken0 + Dests(moves), taken0, rename, prefix)
      ensures stats == old(stats).(
        sortedImages := old(stats).sortedImages + |moves|,
        duplicatesHandled := old(stats).duplicatesHandled
          + Conflicts(Visits(groups, old(checkpointFolders)), moves, taken0, rename, prefix))
      ensures checkpointFolders == old(checkpointFolders)
    {
      ghost var s0 := stats;
      var folders := checkpointFolders;
      ghost var all := Visits(groups, folders);
      moves := [];
      var taken := taken0;
      var g := 0;
      while g < |groups|
        invariant 0 <= g <= |groups|
        invariant |moves| == Offset(groups, g, folders)
        invariant Placement(all, moves, taken, taken0, rename, prefix)
        invariant stats == s0.(
          sortedImages := s0.sortedImages + |moves|,
          duplicatesHandled := s0.duplicatesHandled + Conflicts(all, moves, taken0, rename, prefix))
        invariant checkpointFolders == folders
      {
        moves, taken := SortGroupAt(all, groups, g, folders, rename, prefix, taken0, moves, taken, s0);
        g := g + 1;
      }
      OffsetAll(groups, folders);
    }

    /** One pass of the outer loop: the files of group `g` are sorted when
        its checkpoint has a folder. */
    method SortGroupAt(ghost all: seq<Visit>, groups: Groups, g: nat, folders: map<string, string>, rename: bool,
                       prefix: string, taken0: set<string>, moves0: seq<(string, string)>, taken1: set<string>,
                       ghost s0: SortStats)
      returns (moves: seq<(string, string)>, taken: set<string>)
      requires g < |groups| && all == Visits(groups, folders)
      requires |moves0| == Offset(groups, g, folders)
      requires Placement(all, moves0, taken1, taken0, rename, prefix)
      requires stats == s0.(
        sortedImages := s0.sortedImages + |moves0|,
        duplicatesHandled := s0.duplicatesHandled + Conflicts(all, moves0, taken0, rename, prefix))
      modifies this
      ensures |moves| == Offset(groups, g + 1, folders)
      ensures Placement(all, moves, taken, taken0, rename, prefix)
      ensures stats == s0.(
        sortedImages := s0.sortedImages + |moves|,
        duplicatesHandled := s0.duplicatesHandled + Conflicts(all, moves, taken0, rename, prefix))
      ensures checkpointFolders == old(checkpointFolders)
    {
      moves, taken := moves0, taken1;
      if groups[g].0 in folders {
        GroupVisits(groups, g, folders);
        assert Lays(all, |moves0|, groups[g].1, folders[groups[g].0]);
        moves, taken := SortGroup(all, groups[g].1, folders[groups[g].0], rename, prefix, taken0, moves0, taken1, s0);
        assert |moves| == Offset(groups, g, folders) + |groups[g].1|;
      }
    }

    /** The inner loop of `_sort_files_to_folders`: the files of one group
        go to `folder`, continuing the shared counter `|moves|`. */
    method SortGroup(ghost all: seq<Visit>, files: seq<FileRef>, folder: string, rename: bool, prefix: string,
                     taken0: set<string>, moves0: seq<(string, string)>, taken1: set<string>, ghost s0: SortStats)
      returns (moves: seq<(string, string)>, taken: set<string>)
      requires Lays(all, |moves0|, files, folder)
      requires Placement(all, moves0, taken1, taken0, rename, prefix)
      requires stats == s0.(
        sortedImages := s0.sortedImages + |moves0|,
        duplicatesHandled := s0.duplicatesHandled + Conflicts(all, moves0, taken0, rename, prefix))
      modifies this
      ensures |moves| == |moves0| + |files|
      ensures Placement(all, moves, taken, taken0, rename, prefix)
      ensures stats == s0.(
        sortedImages := s0.sortedImages + |moves|,
        duplicatesHandled := s0.duplicatesHandled + Conflicts(all, moves, taken0, rename, prefix))
      ensures checkpointFolders == old(checkpointFolders)
    {
      moves, taken := moves0, taken1;
      var i := 0;
      while i < |files|
        invariant 0 <= i <= |files|
        invariant |moves| == |moves0| + i
        invariant Placement(all, moves, taken, taken0, rename, prefix)
        invariant stats == s0.(
          sortedImages := s0.sortedImages + |moves|,
          duplicatesHandled := s0.duplicatesHandled + Conflicts(all, moves, taken0, rename, prefix))
        invariant checkpointFolders == old(checkpointFolders)
      {
        var v: Visit := (files[i], folder);
        var target := TargetPath(v, |moves| + 1, rename, prefix);
        var dest := ResolveFilenameConflict(target, taken);
        PlacementStep(all, moves, taken, taken0, rename, prefix, (files[i].0, dest));
        stats := stats.(sortedImages := stats.sortedImages + 1);
        moves := moves + [(files[i].0, dest)];
        taken := taken + {dest};
        i := i + 1;
      }
    }
  }

  /** How many files the first `g` groups send to a folder. */
  ghost function Offset(groups: Groups, g: nat, folders: map<string, string>): nat
    requires g <= |groups|
  {
    if g == 0 then 0
    else Offset(groups, g - 1, folders) + (if groups[g - 1].0 in folders then |groups[g - 1].1| else 0)
  }

  /** `Offset` looks only at the groups before `g`. */
  lemma {:induction false} OffsetOfPrefix(groups: Groups, front: Groups, g: nat, folders: map<string, string>)
    requires g <= |front| <= |groups| && front == groups[..|front|]
    ensures Offset(groups, g, folders) == Offset(front, g, folders)
  {
    if g > 0 {
      OffsetOfPrefix(groups, front, g - 1, folders);
    }
  }

  /** All groups together send `|Visits|` files. */
  lemma {:induction false} OffsetAll(groups: Groups, folders: map<string, string>)
    ensures Offset(groups, |groups|, folders) == |Visits(groups, folders)|
    decreases |groups|
  {
    if groups != [] {
      var front := groups[..|groups| - 1];
      OffsetAll(front, folders);
      OffsetOfPrefix(groups, front, |front|, folders);
    }
  }

  /** `files`, each paired with `folder`, sit in `all` from `start` on. */
  ghost predicate Lays(all: seq<Visit>, start: nat, files: seq<FileRef>, folder: string)
  {
    start + |files| <= |all| &&
    forall i :: 0 <= i < |files| ==> all[start + i] == (files[i], folder)
  }

  /** The files of a group with a folder sit in the visit sequence right
      after those of the groups before it. */
  lemma {:induction false} GroupVisits(groups: Groups, g: nat, folders: map<string, string>)
    requires g < |groups|
    ensures groups[g].0 in folders ==>
      Lays(Visits(groups, folders), Offset(groups, g, folders), groups[g].1, folders[groups[g].0])
    decreases |groups|
  {
    var front := groups[..|groups| - 1];
    var before := Visits(front, folders);
    var last := VisitGroup(groups[|groups| - 1], folders);
    assert Visits(groups, folders) == before + last;
    OffsetOfPrefix(groups, front, g, folders);
    if g < |front| {
      GroupVisits(front, g, folders);
      assert front[g] == groups[g];
      if groups[g].0 in folders {
        LaysExtend(before, last, Offset(front, g, folders), groups[g].1, folders[groups[g].0]);
      }
    } else {
      OffsetAll(front, folders);
      if groups[g].0 in folders {
        LaysAfter(before, groups[g].1, folders[groups[g].0]);
      }
    }
  }

  lemma LaysExtend(a: seq<Visit>, b: seq<Visit>, start: nat, files: seq<FileRef>, folder: string)
    requires Lays(a, start, files, folder)
    ensures Lays(a + b, start, files, folder)
  {
    forall i | 0 <= i < |files|
      ensures (a + b)[start + i] == (files[i], folder)
    {
      assert (a + b)[start + i] == a[start + i];
    }
  }

  lemma LaysAfter(a: seq<Visit>, files: seq<FileRef>, folder: string)
    ensures Lays(a + InFolder(files, folder), |a|, files, folder)
  {
    var b := InFolder(files, folder);
    forall i | 0 <= i < |files|
      ensures (a + b)[|a| + i] == (files[i], folder)
    {
      assert (a + b)[|a| + i] == b[i];
    }
  }

  /** The moves placed the visited files and `taken` holds the paths
      existing now. */
  ghost predicate Placement(all: seq<Visit>, moves: seq<(string, string)>, taken: set<string>, taken0: set<string>,
                            rename: bool, prefix: string)
  {
    Placed(all, moves, taken0, rename, prefix) && taken == taken0 + Dests(moves)
  }

  lemma DestsSnoc(moves: seq<(string, string)>, m: (string, string))
    ensures Dests(moves + [m]) == Dests(moves) + {m.1}
  {
    var ms := moves + [m];
    forall x | x in Dests(ms) ensures x in Dests(moves) + {m.1} {
      var k :| 0 <= k < |ms| && ms[k].1 == x;
      if k < |moves| { assert moves[k].1 == x; }
    }
    forall x | x in Dests(moves) + {m.1} ensures x in Dests(ms) {
      if x == m.1 {
        assert ms[|moves|].1 == x;
      } else {
        var k :| 0 <= k < |moves| && moves[k].1 == x;
        assert ms[k].1 == x;
      }
    }
  }

  lemma PlacementStep(all: seq<Visit>, moves: seq<(string, string)>, taken: set<string>, taken0: set<string>,
                      rename: bool, prefix: string, m: (string, string))
    requires Placement(all, moves, taken, taken0, rename, prefix)
    requires |moves| < |all| && m.0 == all[|moves|].0.0
    requires Resolves(taken, TargetPath(all[|moves|], |moves| + 1, rename, prefix), m.1)
    ensures Placement(all, moves + [m], taken + {m.1}, taken0, rename, prefix)
    ensures Conflicts(all, moves + [m], taken0, rename, prefix) == Conflicts(all, moves, taken0, rename, prefix)
      + if TargetPath(all[|moves|], |moves| + 1, rename, prefix) in taken then 1 else 0
  {
    PlacedSnoc(all, moves, taken0, rename, prefix, m);
    ConflictsSnoc(all, moves, taken0, rename, prefix, m);
    DestsSnoc(moves, m);
  }

  lemma PlacedSnoc(visits: seq<Visit>, moves: seq<(string, string)>, taken0: set<string>, rename: bool, prefix: string,
                   m: (string, string))
    requires Placed(visits, moves, taken0, rename, prefix)
    requires |moves| < |visits| && m.0 == visits[|moves|].0.0
    requires Resolves(taken0 + Dests(moves), TargetPath(visits[|moves|], |moves| + 1, rename, prefix), m.1)
    ensures Placed(visits, moves + [m], taken0, rename, prefix)
  {
    var ms := moves + [m];
    assert ms[..|moves|] == moves;
    forall n | 0 <= n < |ms| ensures PlacedAt(visits, ms, taken0, rename, prefix, n) {
      if n < |moves| {
        assert PlacedAt(visits, moves, taken0, rename, prefix, n);
        assert ms[..n] == moves[..n] && ms[n] == moves[n];
      }
    }
  }

  lemma ConflictsSnoc(visits: seq<Visit>, moves: seq<(string, string)>, taken0: set<string>, rename: bool, prefix: string,
                      m: (string, string))
    requires |moves| < |visits|
    ensures Conflicts(visits, moves + [m], taken0, rename, prefix)
      == Conflicts(visits, moves, taken0, rename, prefix)
        + (if TargetPath(visits[|moves|], |moves| + 1, rename, prefix) in taken0 + Dests(moves) then 1 else 0)
  {
    assert (moves + [m])[..|moves|] == moves;
  }
}
