/** The image flattener: the preview of a nested folder tree (images per
    folder, file names found more than once) and the copy or move of every
    image into one folder, under a running number or its own name made
    free. */
module ImageFlattener {
  import opened Text
  import opened Paths
  import opened Probing
  import opened FileOps
  import opened Counting

  /** `self.image_extensions`; only membership is used, so a sequence
      serves for the set. */
  const ImageExtensions: seq<string> := [".jpg", ".jpeg", ".png", ".gif", ".bmp", ".tiff", ".webp", ".svg"]

  /** `file_path.suffix.lower() in self.image_extensions`, with the suffix
      taken of the lowered name (`SuffixLower`: the two agree). */
  predicate IsImage(name: string)
  {
    Suffix(Lower(name)) in ImageExtensions
  }

  /** Lowering keeps the dots where they are. */
  lemma {:induction false} LastDotLower(s: string)
    ensures LastIndexOf(Lower(s), '.') == LastIndexOf(s, '.')
  {
    if s != [] {
      var n := |s| - 1;
      LowerTo(s, n);
      LastDotLower(s[..n]);
    }
  }

  /** The suffix of the lowered name is the lowered suffix. */
  lemma {:induction false} SuffixLower(name: string)
    ensures Suffix(Lower(name)) == Lower(Suffix(name))
  {
    LastDotLower(name);
    match LastIndexOf(name, '.')
    case Some(i) =>
      if 0 < i < |name| - 1 {
        LowerFrom(name, i);
      }
    case None =>
  }

  lemma LowerTo(s: string, n: nat)
    requires n < |s|
    ensures Lower(s)[..n] == Lower(s[..n])
    ensures Lower(s)[n] == '.' <==> s[n] == '.'
  {
  }

  lemma LowerFrom(s: string, i: nat)
    requires i <= |s|
    ensures Lower(s)[i..] == Lower(s[i..])
  {
  }

  /** `base.ext` is an image exactly when `.ext`, in lower case, is one of
      the extensions: the test ignores case. */
  lemma {:induction false} IsImageSpec(base: string, ext: string)
    requires base != "" && ext != "" && '.' !in ext
    ensures IsImage(base + "." + ext) <==> Lower("." + ext) in ImageExtensions
  {
    StemOfDotted(base, ext);
    SuffixLower(base + "." + ext);
  }

  /** A name without a dot, or with a dot only at its start, is never an
      image. */
  lemma NotAnImage(name: string)
    requires '.' !in name || (name[0] == '.' && '.' !in name[1..])
    ensures !IsImage(name)
  {
    if '.' in name {
      assert name == [name[0]] + name[1..];
      assert LastIndexOf(name, '.') == Some(0);
    }
    assert Suffix(name) == "";
    SuffixLower(name);
  }

  // ---------------------------------------------------------------------
  // The directory walk
  // ---------------------------------------------------------------------

  /** One directory of `os.walk(source)`: its path relative to the source
      ("" for the source itself) and the names of its files. */
  datatype WalkDir = WalkDir(rel: string, files: seq<string>)

  /** The images of one directory, in listing order. */
  function ImageNames(files: seq<string>): (r: seq<string>)
    ensures |r| <= |files|
  {
    if files == [] then [] else ImageNames(files[..|files| - 1]) + ImageIf(files[|files| - 1])
  }

  function ImageIf(f: string): seq<string>
  {
    if IsImage(f) then [f] else []
  }

  lemma ImageNamesStep(files: seq<string>, j: nat)
    requires j < |files|
    ensures ImageNames(files[..j + 1]) == ImageNames(files[..j]) + ImageIf(files[j])
  {
    assert files[..j + 1][..j] == files[..j];
  }

  lemma ImageCountStep(files: seq<string>, j: nat)
    requires j < |files|
    ensures |ImageNames(files[..j + 1])| == |ImageNames(files[..j])| + if IsImage(files[j]) then 1 else 0
  {
    ImageNamesStep(files, j);
  }

  /** The images kept are the images listed. */
  lemma {:induction false} ImageNamesSpec(files: seq<string>, f: string)
    ensures f in ImageNames(files) <==> f in files && IsImage(f)
  {
    if files != [] {
      var front, g := files[..|files| - 1], files[|files| - 1];
      ImageNamesSpec(front, f);
      assert f in files <==> f in front || f == g;
    }
  }

  /** `all_filenames`: the image names of every directory, in walk order. */
  function AllImageNames(walk: seq<WalkDir>): seq<string>
  {
    if walk == [] then [] else AllImageNames(walk[..|walk| - 1]) + ImageNames(walk[|walk| - 1].files)
  }

  /** `total_images`: the image counts of the directories added up. */
  function TotalImages(walk: seq<WalkDir>): nat
  {
    if walk == [] then 0 else TotalImages(walk[..|walk| - 1]) + |ImageNames(walk[|walk| - 1].files)|
  }

  /** The directory of a walk entry: the source itself, or the source
      joined with the relative path. */
  function DirPath(source: string, d: WalkDir): string
  {
    if d.rel == "" then source else PathJoin(source, d.rel)
  }

  /** `Path(root) / file` for each name. */
  function JoinAll(dir: string, names: seq<string>): (r: seq<string>)
    ensures |r| == |names|
    ensures forall k :: 0 <= k < |r| ==> r[k] == PathJoin(dir, names[k])
  {
    if names == [] then [] else JoinAll(dir, names[..|names| - 1]) + [PathJoin(dir, names[|names| - 1])]
  }

  lemma JoinAllAppend(dir: string, a: seq<string>, b: seq<string>)
    ensures JoinAll(dir, a + b) == JoinAll(dir, a) + JoinAll(dir, b)
  {
  }

  /** `image_files`: the path of every image, in walk order. */
  function ImagePaths(source: string, walk: seq<WalkDir>): seq<string>
  {
    if walk == [] then []
    else
      var d := walk[|walk| - 1];
      ImagePaths(source, walk[..|walk| - 1]) + JoinAll(DirPath(source, d), ImageNames(d.files))
  }

  /** The preview's total is the number of image names found and the number
      of files flattening processes. */
  lemma {:induction false} TotalImagesSpec(source: string, walk: seq<WalkDir>)
    ensures TotalImages(walk) == |AllImageNames(walk)| == |ImagePaths(source, walk)|
  {
    if walk != [] {
      TotalImagesSpec(source, walk[..|walk| - 1]);
    }
  }

  // ---------------------------------------------------------------------
  // The preview (`preview_flatten`)
  // ---------------------------------------------------------------------

  /** The `folder_stats` key of a directory: its relative path, or "ROOT"
      for the source itself. */
  function FolderKey(d: WalkDir): string
  {
    if d.rel == "" then "ROOT" else d.rel
  }

  /** Each directory's key and image count, in walk order. */
  function DirCounts(walk: seq<WalkDir>): (r: seq<(string, nat)>)
    ensures |r| == |walk|
    ensures forall i :: 0 <= i < |walk| ==> r[i] == (FolderKey(walk[i]), |ImageNames(walk[i].files)|)
  {
    seq(|walk|, i requires 0 <= i < |walk| => (FolderKey(walk[i]), |ImageNames(walk[i].files)|))
  }

  /** `folder_stats`: the count of each directory with an image, under its
      key; a later directory with the same key replaces an earlier one. */
  function FolderStats(counts: seq<(string, nat)>): (m: map<string, nat>)
    ensures forall k :: k in m ==> m[k] > 0
  {
    if counts == [] then map[]
    else
      var m := FolderStats(counts[..|counts| - 1]);
      var c := counts[|counts| - 1];
      if c.1 > 0 then m[c.0 := c.1] else m
  }

  /** A key is recorded exactly when some directory with an image has it. */
  lemma {:induction false} FolderStatsKeys(counts: seq<(string, nat)>, k: string)
    ensures k in FolderStats(counts) <==> exists i :: 0 <= i < |counts| && counts[i].1 > 0 && counts[i].0 == k
  {
    if counts != [] {
      var n := |counts| - 1;
      var front := counts[..n];
      FolderStatsKeys(front, k);
      if exists i :: 0 <= i < |front| && front[i].1 > 0 && front[i].0 == k {
        var i :| 0 <= i < |front| && front[i].1 > 0 && front[i].0 == k;
        assert counts[i] == front[i];
      }
      if exists i :: 0 <= i < |counts| && counts[i].1 > 0 && counts[i].0 == k {
        var i :| 0 <= i < |counts| && counts[i].1 > 0 && counts[i].0 == k;
        if i < n {
          assert counts[i] == front[i];
        }
      }
    }
  }

  /** The number of directories with an image. */
  function WithImages(counts: seq<(string, nat)>): nat
  {
    if counts == [] then 0 else WithImages(counts[..|counts| - 1]) + if counts[|counts| - 1].1 > 0 then 1 else 0
  }

  /** Directories with images have different keys. */
  predicate KeysDistinct(counts: seq<(string, nat)>)
  {
    forall i, j :: 0 <= i < j < |counts| && counts[i].1 > 0 && counts[j].1 > 0 ==> counts[i].0 != counts[j].0
  }

  /** `folders` never exceeds the number of directories with an image, and
      equals it when their keys differ. */
  lemma {:induction false} FoldersCount(counts: seq<(string, nat)>)
    ensures |FolderStats(counts)| <= WithImages(counts)
    ensures KeysDistinct(counts) ==> |FolderStats(counts)| == WithImages(counts)
  {
    if counts != [] {
      var n := |counts| - 1;
      var front, c := counts[..n], counts[n];
      FoldersCount(front);
      if KeysDistinct(counts) {
        FrontKeysDistinct(counts);
      }
      var m := FolderStats(front);
      if c.1 > 0 {
        if c.0 in m {
          assert m[c.0 := c.1].Keys == m.Keys;
          if KeysDistinct(counts) {
            FolderStatsKeys(front, c.0);
          }
        } else {
          assert m[c.0 := c.1].Keys == m.Keys + {c.0};
        }
      }
    }
  }

  lemma FrontKeysDistinct(counts: seq<(string, nat)>)
    requires counts != [] && KeysDistinct(counts)
    ensures KeysDistinct(counts[..|counts| - 1])
  {
    var front := counts[..|counts| - 1];
    forall i, j | 0 <= i < j < |front| && front[i].1 > 0 && front[j].1 > 0
      ensures front[i].0 != front[j].0
    {
      assert counts[i] == front[i] && counts[j] == front[j];
    }
  }

  /** A top-level folder named `ROOT` shares its key with the source
      itself: when both hold images they take one entry of
      `folder_stats`, the later one. */
  lemma RootKeyShared(c1: nat, c2: nat)
    requires c1 > 0 && c2 > 0
    ensures var counts := [(FolderKey(WalkDir("", [])), c1), (FolderKey(WalkDir("ROOT", [])), c2)];
      WithImages(counts) == 2 && FolderStats(counts) == map["ROOT" := c2]
  {
    var root: string := "ROOT";
    var counts: seq<(string, nat)> := [(root, c1), (root, c2)];
    assert [(FolderKey(WalkDir("", [])), c1), (FolderKey(WalkDir("ROOT", [])), c2)] == counts;
    var first := counts[..1];
    assert first == [(root, c1)];
    assert first[..0] == [];
    assert WithImages(first) == 1 && FolderStats(first) == map[root := c1];
    assert counts[..1] == first;
    assert FolderStats(counts) == map[root := c1][root := c2] == map[root := c2];
  }

  /** The names `Counter(all_filenames)` counts more than once. */
  function DuplicateNames(names: seq<string>): set<string>
  {
    var counts := Tally(names);
    set n | n in counts && counts[n] > 1
  }

  /** A name is a duplicate exactly when two images carry it. */
  lemma DuplicateNamesSpec(names: seq<string>, n: string)
    ensures n in DuplicateNames(names) <==> exists i, j :: 0 <= i < j < |names| && names[i] == n && names[j] == n
  {
    TallySpec(names);
    Repeated(names, n);
    if exists i, j :: 0 <= i < j < |names| && names[i] == n && names[j] == n {
      var i, j :| 0 <= i < j < |names| && names[i] == n && names[j] == n;
      assert n in names;
    }
  }

  /** There are no duplicates exactly when all image names differ. */
  lemma NoDuplicates(names: seq<string>)
    ensures |DuplicateNames(names)| == 0 <==> forall i, j :: 0 <= i < j < |names| ==> names[i] != names[j]
  {
    if |DuplicateNames(names)| == 0 {
      forall i, j | 0 <= i < j < |names| ensures names[i] != names[j] {
        DuplicateNamesSpec(names, names[i]);
      }
    } else {
      var n :| n in DuplicateNames(names);
      DuplicateNamesSpec(names, n);
    }
  }

  /** What `preview_flatten` returns. */
  datatype Preview = Preview(totalImages: nat, folders: nat, folderStats: map<string, nat>, duplicates: nat)

  /** `preview_flatten` over the walk: the first walk counts the images per
      directory, the second collects their names for the conflict check. */
  method PreviewFlatten(walk: seq<WalkDir>) returns (r: Preview)
    ensures r.totalImages == TotalImages(walk)
    ensures r.folderStats == FolderStats(DirCounts(walk)) && r.folders == |r.folderStats|
    ensures r.duplicates == |DuplicateNames(AllImageNames(walk))|
  {
    var folderStats: map<string, nat> := map[];
    var totalImages := 0;
    ghost var counts := DirCounts(walk);
    var i := 0;
    while i < |walk|
      invariant 0 <= i <= |walk|
      invariant totalImages == TotalImages(walk[..i]) && folderStats == FolderStats(counts[..i])
    {
      totalImages, folderStats := CountFolder(walk, counts, i, totalImages, folderStats);
      i := i + 1;
    }
    assert walk[..i] == walk && counts[..i] == counts;
    var allFilenames := CollectAll(walk);
    var duplicates := DuplicateNames(allFilenames);
    r := Preview(totalImages, |folderStats|, folderStats, |duplicates|);
  }

  /** The second walk: the image names of every directory. */
  method CollectAll(walk: seq<WalkDir>) returns (allFilenames: seq<string>)
    ensures allFilenames == AllImageNames(walk)
  {
    allFilenames := [];
    var i := 0;
    while i < |walk|
      invariant 0 <= i <= |walk|
      invariant allFilenames == AllImageNames(walk[..i])
    {
      var names := CollectImages(walk[i].files);
      allFilenames := allFilenames + names;
      assert walk[..i + 1][..i] == walk[..i];
      i := i + 1;
    }
    assert walk[..i] == walk;
  }

  /** One pass of the first walk: directory `i` is counted and recorded
      when it has an image. */
  method CountFolder(walk: seq<WalkDir>, ghost counts: seq<(string, nat)>, i: nat, totalImages: nat,
                     folderStats: map<string, nat>)
    returns (totalImages': nat, folderStats': map<string, nat>)
    requires i < |walk| && counts == DirCounts(walk)
    requires totalImages == TotalImages(walk[..i]) && folderStats == FolderStats(counts[..i])
    ensures totalImages' == TotalImages(walk[..i + 1]) && folderStats' == FolderStats(counts[..i + 1])
  {
    var d := walk[i];
    var imageCount := CountImages(d.files);
    totalImages' := totalImages + imageCount;
    folderStats' := folderStats;
    if imageCount > 0 {
      folderStats' := folderStats[FolderKey(d) := imageCount];
    }
    TotalImagesSnoc(walk, i);
    FolderStatsSnoc(counts, i);
  }

  lemma TotalImagesSnoc(walk: seq<WalkDir>, i: nat)
    requires i < |walk|
    ensures TotalImages(walk[..i + 1]) == TotalImages(walk[..i]) + |ImageNames(walk[i].files)|
  {
    assert walk[..i + 1][..i] == walk[..i];
  }

  lemma FolderStatsSnoc(counts: seq<(string, nat)>, i: nat)
    requires i < |counts|
    ensures var m := FolderStats(counts[..i]);
      FolderStats(counts[..i + 1]) == if counts[i].1 > 0 then m[counts[i].0 := counts[i].1] else m
  {
    assert counts[..i + 1][..i] == counts[..i];
  }

  /** `image_count` for one directory. */
  method CountImages(files: seq<string>) returns (n: nat)
    ensures n == |ImageNames(files)|
  {
    n := 0;
    var j := 0;
    while j < |files|
      invariant 0 <= j <= |files|
      invariant n == |ImageNames(files[..j])|
    {
      n := CountOne(files, j, n);
      j := j + 1;
    }
    assert files[..j] == files;
  }

  /** One pass of the counting loop: file `j` is counted when it is an
      image. */
  method CountOne(files: seq<string>, j: nat, n: nat) returns (n': nat)
    requires j < |files| && n == |ImageNames(files[..j])|
    ensures n' == |ImageNames(files[..j + 1])|
  {
    ImageCountStep(files, j);
    n' := n;
    if IsImage(files[j]) {
      n' := n + 1;
    }
  }

  /** The image names of one directory, appended in listing order. */
  method CollectImages(files: seq<string>) returns (names: seq<string>)
    ensures names == ImageNames(files)
  {
    names := [];
    var j := 0;
    while j < |files|
      invariant 0 <= j <= |files|
      invariant names == ImageNames(files[..j])
    {
      ImageNamesStep(files, j);
      if IsImage(files[j]) {
        names := names + [files[j]];
      }
      j := j + 1;
    }
    assert files[..j] == files;
  }

  // ---------------------------------------------------------------------
  // Flattening (`flatten_images`)
  // ---------------------------------------------------------------------

  /** `f"{user_prefix}_img{n}{suffix}"`, or `f"flattened_img{n}{suffix}"`
      without a prefix. */
  function FlatName(prefix: string, n: nat, suffix: string): string
  {
    FlatStart(prefix) + NatToString(n) + suffix
  }

  function FlatStart(prefix: string): (r: string)
    ensures r != ""
  {
    if prefix != "" then prefix + "_img" else "flattened_img"
  }

  /** The target of a file that is the `n`-th processed: the renamed name
      in the target folder, or the file's own name made free there. */
  function FlatTarget(existing: set<string>, targetDir: string, file: string, n: nat, rename: bool,
                      prefix: string): string
  {
    if rename then PathJoin(targetDir, FlatName(prefix, n, Suffix(PathName(file))))
    else StemFree(existing, targetDir, PathName(file))
  }

  /** The `stem_k` candidates the conflict loop tries for a file, each
      counted in `duplicates_count`; none when renaming. */
  function FlatProbes(existing: set<string>, targetDir: string, file: string, rename: bool): nat
  {
    if rename then 0
    else
      StemIsInjective(targetDir, PathName(file));
      Probes(existing, PathJoin(targetDir, PathName(file)), StemCand(targetDir, PathName(file)))
  }

  /** How a file is named: from the paths that exist, the file and its
      number in the processing order. */
  type Namer = (set<string>, string, nat) -> string

  /** How many candidates the conflict loop tries for a file. */
  type Prober = (set<string>, string) -> nat

  function FlatNamer(targetDir: string, rename: bool, prefix: string): Namer
  {
    (existing: set<string>, file: string, n: nat) => FlatTarget(existing, targetDir, file, n, rename, prefix)
  }

  function FlatProber(targetDir: string, rename: bool): Prober
  {
    (existing: set<string>, file: string) => FlatProbes(existing, targetDir, file, rename)
  }

  /** `name` and `probe` are the flattener's. */
  ghost predicate Flattens(name: Namer, probe: Prober, targetDir: string, rename: bool, prefix: string)
  {
    (forall existing, file, n :: name(existing, file, n) == FlatTarget(existing, targetDir, file, n, rename, prefix)) &&
    (forall existing, file :: probe(existing, file) == FlatProbes(existing, targetDir, file, rename))
  }

  lemma FlatFlattens(targetDir: string, rename: bool, prefix: string)
    ensures Flattens(FlatNamer(targetDir, rename, prefix), FlatProber(targetDir, rename), targetDir, rename, prefix)
  {
  }

  /** The transfers so far and `duplicates_count`. */
  datatype Flattening = Flattening(st: Sorting, duplicates: nat)

  /** One file of the loop, the `n`-th processed. */
  function FlattenStep(t: Flattening, file: string, n: nat, name: Namer, probe: Prober, move: bool): Flattening
  {
    Flattening(Transfer(t.st, file, name(t.st.existing, file, n), move), t.duplicates + probe(t.st.existing, file))
  }

  /** The flattening loop over the image files in walk order: file `j` is
      the `j + 1`-th processed, whether or not earlier transfers failed. */
  function FlattenRun(existing0: set<string>, files: seq<string>, name: Namer, probe: Prober, move: bool)
    : (r: Flattening)
    ensures |r.st.ops| == |files|
  {
    if files == [] then Flattening(Sorting([], existing0, 0), 0)
    else
      var n := |files| - 1;
      FlattenStep(FlattenRun(existing0, files[..n], name, probe, move), files[n], n + 1, name, probe, move)
  }

  /** One more file is one more step. */
  lemma {:induction false} FlattenSnoc(existing0: set<string>, files: seq<string>, name: Namer, probe: Prober, move: bool, j: nat)
    requires j < |files|
    ensures FlattenRun(existing0, files[..j + 1], name, probe, move) ==
      FlattenStep(FlattenRun(existing0, files[..j], name, probe, move), files[j], j + 1, name, probe, move)
  {
    assert files[..j + 1][..j] == files[..j];
  }

  /** The paths that exist when file `j` is reached. */
  function Before(existing0: set<string>, files: seq<string>, name: Namer, probe: Prober, move: bool, j: nat)
    : set<string>
    requires j <= |files|
  {
    FlattenRun(existing0, files[..j], name, probe, move).st.existing
  }

  /** The `j`-th operation transfers the `j`-th file to its target at that
      point. */
  lemma {:induction false} FlattenOps(existing0: set<string>, files: seq<string>, name: Namer, probe: Prober,
                                      move: bool, j: nat)
    requires j < |files|
    ensures var r := FlattenRun(existing0, files, name, probe, move);
      r.st.ops[j].source == files[j] &&
      r.st.ops[j].dest == name(Before(existing0, files, name, probe, move, j), files[j], j + 1)
  {
    var n := |files| - 1;
    if j < n {
      FlattenOps(existing0, files[..n], name, probe, move, j);
      FlattenKeeps(existing0, files, name, probe, move, j);
      assert files[..n][..j] == files[..j];
    } else {
      FlattenLast(existing0, files, name, probe, move);
    }
  }

  lemma {:induction false} FlattenLast(existing0: set<string>, files: seq<string>, name: Namer, probe: Prober, move: bool)
    requires files != []
    ensures var n := |files| - 1;
      var r := FlattenRun(existing0, files, name, probe, move);
      r.st.ops[n].source == files[n] &&
      r.st.ops[n].dest == name(Before(existing0, files, name, probe, move, n), files[n], n + 1)
  {
    var n := |files| - 1;
    var t := FlattenRun(existing0, files[..n], name, probe, move);
    TransferAppends(t.st, files[n], name(t.st.existing, files[n], n + 1), move);
  }

  lemma {:induction false} FlattenKeeps(existing0: set<string>, files: seq<string>, name: Namer, probe: Prober, move: bool, k: nat)
    requires k < |files| - 1
    ensures var n := |files| - 1;
      FlattenRun(existing0, files, name, probe, move).st.ops[k] ==
      FlattenRun(existing0, files[..n], name, probe, move).st.ops[k]
  {
    var n := |files| - 1;
    var t := FlattenRun(existing0, files[..n], name, probe, move);
    TransferAppends(t.st, files[n], name(t.st.existing, files[n], n + 1), move);
  }

  /** With renaming, file `j` becomes `{prefix}_img{j + 1}{suffix}`: one
      counter for all files, from 1 up by one per file. */
  lemma {:induction false} RenamedSequence(existing0: set<string>, files: seq<string>, targetDir: string, move: bool, prefix: string,
                        j: nat)
    requires j < |files|
    ensures FlattenRun(existing0, files, FlatNamer(targetDir, true, prefix), FlatProber(targetDir, true), move)
      .st.ops[j].dest == PathJoin(targetDir, FlatName(prefix, j + 1, Suffix(PathName(files[j]))))
  {
    FlattenOps(existing0, files, FlatNamer(targetDir, true, prefix), FlatProber(targetDir, true), move, j);
  }

  /** With renaming, no two files get the same target. */
  lemma {:induction false} RenamedUnique(existing0: set<string>, files: seq<string>, targetDir: string, move: bool, prefix: string,
                      i: nat, j: nat)
    requires i < j < |files|
    ensures var r := FlattenRun(existing0, files, FlatNamer(targetDir, true, prefix), FlatProber(targetDir, true), move);
      r.st.ops[i].dest != r.st.ops[j].dest
  {
    var name, probe := FlatNamer(targetDir, true, prefix), FlatProber(targetDir, true);
    FlatNamerApart(targetDir, prefix, Before(existing0, files, name, probe, move, i), files[i],
                   Before(existing0, files, name, probe, move, j), files[j], i + 1, j + 1);
    NamesApart(existing0, files, name, probe, move, i, j);
  }

  /** The renaming namer never gives two numbers the same target. */
  lemma FlatNamerApart(targetDir: string, prefix: string, e1: set<string>, f1: string, e2: set<string>, f2: string,
                       n: nat, m: nat)
    requires n != m
    ensures FlatNamer(targetDir, true, prefix)(e1, f1, n) != FlatNamer(targetDir, true, prefix)(e2, f2, m)
  {
    FlatTargetsDistinct(targetDir, prefix, n, m, Suffix(PathName(f1)), Suffix(PathName(f2)));
  }

  lemma {:induction false} NamesApart(existing0: set<string>, files: seq<string>, name: Namer, probe: Prober, move: bool,
                                      i: nat, j: nat)
    requires i < j < |files|
    requires name(Before(existing0, files, name, probe, move, i), files[i], i + 1) !=
             name(Before(existing0, files, name, probe, move, j), files[j], j + 1)
    ensures var r := FlattenRun(existing0, files, name, probe, move); r.st.ops[i].dest != r.st.ops[j].dest
  {
    FlattenOps(existing0, files, name, probe, move, i);
    FlattenOps(existing0, files, name, probe, move, j);
  }

  /** Different numbers give different paths in the target folder. */
  lemma FlatTargetsDistinct(targetDir: string, prefix: string, n: nat, m: nat, e1: string, e2: string)
    requires n != m
    requires e1 == "" || e1[0] == '.'
    requires e2 == "" || e2[0] == '.'
    ensures PathJoin(targetDir, FlatName(prefix, n, e1)) != PathJoin(targetDir, FlatName(prefix, m, e2))
  {
    var pre := FlatStart(prefix);
    var b1, b2 := FlatName(prefix, n, e1), FlatName(prefix, m, e2);
    SequentialNamesDistinct(pre, n, m, e1, e2);
    assert b1 == pre + (NatToString(n) + e1) && b2 == pre + (NatToString(m) + e2);
    assert b1[0] == pre[0] == b2[0];
    if PathJoin(targetDir, b1) == PathJoin(targetDir, b2) {
      PathJoinCancel(targetDir, b1, b2);
    }
  }

  /** Without renaming, a file whose own name is free in the target folder
      keeps it; otherwise it gets the first free `stem_k` name. Either way
      it lands on a path that did not exist before it: nothing is
      overwritten. */
  lemma {:induction false} OwnNameWhenFree(existing0: set<string>, files: seq<string>, targetDir: string, move: bool, prefix: string,
                        j: nat)
    requires j < |files|
    ensures var name, probe := FlatNamer(targetDir, false, prefix), FlatProber(targetDir, false);
      var before := Before(existing0, files, name, probe, move, j);
      var dest := FlattenRun(existing0, files, name, probe, move).st.ops[j].dest;
      var own := PathJoin(targetDir, PathName(files[j]));
      dest !in before &&
      (own !in before ==> dest == own) &&
      (own in before ==> exists k: nat :: k >= 1 && dest == StemNumbered(targetDir, PathName(files[j]), k))
  {
    var name, probe := FlatNamer(targetDir, false, prefix), FlatProber(targetDir, false);
    FlattenOps(existing0, files, name, probe, move, j);
    StemFreeSpec(Before(existing0, files, name, probe, move, j), targetDir, PathName(files[j]));
  }

  /** `duplicates_count` is 0 exactly when no file needed a probe. */
  lemma {:induction false} NoProbes(existing0: set<string>, files: seq<string>, name: Namer, probe: Prober,
                                    move: bool)
    ensures FlattenRun(existing0, files, name, probe, move).duplicates == 0 <==>
      NoneProbed(existing0, files, name, probe, move)
  {
    if files != [] {
      var n := |files| - 1;
      NoProbes(existing0, files[..n], name, probe, move);
      NoneProbedSnoc(existing0, files, name, probe, move);
    }
  }

  /** No file needed a probe. */
  predicate NoneProbed(existing0: set<string>, files: seq<string>, name: Namer, probe: Prober, move: bool)
  {
    forall j :: 0 <= j < |files| ==> probe(Before(existing0, files, name, probe, move, j), files[j]) == 0
  }

  lemma {:induction false} NoneProbedSnoc(existing0: set<string>, files: seq<string>, name: Namer, probe: Prober, move: bool)
    requires files != []
    ensures var n := |files| - 1;
      NoneProbed(existing0, files, name, probe, move) <==>
      NoneProbed(existing0, files[..n], name, probe, move) &&
      probe(FlattenRun(existing0, files[..n], name, probe, move).st.existing, files[n]) == 0
  {
    var n := |files| - 1;
    var front := files[..n];
    assert files[..n] == front;
    if NoneProbed(existing0, files, name, probe, move) {
      forall j | 0 <= j < n
        ensures probe(Before(existing0, front, name, probe, move, j), front[j]) == 0
      {
        BeforeFront(existing0, files, name, probe, move, j);
      }
    }
    if NoneProbed(existing0, front, name, probe, move) && probe(Before(existing0, files, name, probe, move, n), files[n]) == 0 {
      forall j | 0 <= j < n
        ensures probe(Before(existing0, files, name, probe, move, j), files[j]) == 0
      {
        BeforeFront(existing0, files, name, probe, move, j);
      }
    }
  }

  /** Before file `j`, a sequence and its front have run the same steps. */
  lemma BeforeFront(existing0: set<string>, files: seq<string>, name: Namer, probe: Prober, move: bool, j: nat)
    requires j < |files| - 1
    ensures Before(existing0, files, name, probe, move, j) == Before(existing0, files[..|files| - 1], name, probe, move, j)
    ensures files[j] == files[..|files| - 1][j]
  {
    assert files[..j] == files[..|files| - 1][..j];
  }

  /** Renaming never counts a duplicate. */
  lemma {:induction false} RenamedNoDuplicates(existing0: set<string>, files: seq<string>, targetDir: string, move: bool,
                            prefix: string)
    ensures FlattenRun(existing0, files, FlatNamer(targetDir, true, prefix), FlatProber(targetDir, true), move)
      .duplicates == 0
  {
    NoProbes(existing0, files, FlatNamer(targetDir, true, prefix), FlatProber(targetDir, true), move);
  }

  /** Without renaming, `duplicates_count` is 0 exactly when every file
      found its own name free in the target folder. */
  lemma {:induction false} DuplicatesZero(existing0: set<string>, files: seq<string>, targetDir: string, move: bool, prefix: string)
    ensures var name, probe := FlatNamer(targetDir, false, prefix), FlatProber(targetDir, false);
      FlattenRun(existing0, files, name, probe, move).duplicates == 0 <==>
      forall j :: 0 <= j < |files| ==>
        PathJoin(targetDir, PathName(files[j])) !in Before(existing0, files, name, probe, move, j)
  {
    var name, probe := FlatNamer(targetDir, false, prefix), FlatProber(targetDir, false);
    NoProbes(existing0, files, name, probe, move);
    forall j | 0 <= j < |files|
      ensures probe(Before(existing0, files, name, probe, move, j), files[j]) == 0 <==>
        PathJoin(targetDir, PathName(files[j])) !in Before(existing0, files, name, probe, move, j)
    {
      ProbesZero(Before(existing0, files, name, probe, move, j), targetDir, files[j]);
    }
  }

  /** The conflict loop makes no probe exactly when the name is free. */
  lemma ProbesZero(existing: set<string>, targetDir: string, file: string)
    ensures FlatProbes(existing, targetDir, file, false) == 0 <==> PathJoin(targetDir, PathName(file)) !in existing
  {
    StemIsInjective(targetDir, PathName(file));
  }

  /** `moved_count` counts the transfers that succeeded. */
  lemma {:induction false} FlattenSorted(existing0: set<string>, files: seq<string>, name: Namer, probe: Prober,
                                         move: bool)
    ensures var r := FlattenRun(existing0, files, name, probe, move); r.st.sorted == CountOk(r.st.ops)
  {
    if files != [] {
      var n := |files| - 1;
      FlattenSorted(existing0, files[..n], name, probe, move);
      var t := FlattenRun(existing0, files[..n], name, probe, move);
      TransferCounts(t.st, files[n], name(t.st.existing, files[n], n + 1), move);
    }
  }

  /** `flatten_images` over the walk of the source folder: nothing happens
      when there is no image; otherwise each image is copied or moved in
      walk order, empty folders are cleaned up only after moving, and the
      result is whether any file was processed. */
  method FlattenImages(source: string, walk: seq<WalkDir>, targetDir: string, move: bool, removeEmptyDirs: bool,
                       rename: bool, prefix: string, existing0: set<string>)
    returns (ok: bool, r: Flattening, cleanup: bool)
    ensures var files := ImagePaths(source, walk);
      (files == [] ==> !ok && r == Flattening(Sorting([], existing0, 0), 0) && !cleanup) &&
      (files != [] ==>
        r == FlattenRun(existing0, files, FlatNamer(targetDir, rename, prefix), FlatProber(targetDir, rename), move) &&
        (ok <==> r.st.sorted > 0) && (cleanup <==> removeEmptyDirs && move))
  {
    r := Flattening(Sorting([], existing0, 0), 0);
    var imageFiles := FindImages(source, walk);
    if imageFiles == [] {
      return false, r, false;
    }
    FlatFlattens(targetDir, rename, prefix);
    r := FlattenAll(imageFiles, FlatNamer(targetDir, rename, prefix), FlatProber(targetDir, rename), targetDir, move,
                    rename, prefix, existing0);
    cleanup := removeEmptyDirs && move;
    ok := r.st.sorted > 0;
  }

  /** The flattening loop, with `rename_counter` from 1. */
  method FlattenAll(files: seq<string>, ghost name: Namer, ghost probe: Prober, targetDir: string, move: bool,
                    rename: bool, prefix: string, existing0: set<string>)
    returns (r: Flattening)
    requires Flattens(name, probe, targetDir, rename, prefix)
    ensures r == FlattenRun(existing0, files, name, probe, move)
  {
    r := Flattening(Sorting([], existing0, 0), 0);
    var renameCounter := 1;
    var i := 0;
    while i < |files|
      invariant 0 <= i <= |files|
      invariant r == FlattenRun(existing0, files[..i], name, probe, move)
      invariant rename ==> renameCounter == i + 1
    {
      r, renameCounter := FlattenOne(r, files, i, renameCounter, name, probe, targetDir, move, rename, prefix,
                                     existing0);
      i := i + 1;
    }
    assert files[..i] == files;
  }

  /** One pass of the flattening loop: file `i` is named and transferred. */
  method FlattenOne(r: Flattening, files: seq<string>, i: nat, renameCounter: nat, ghost name: Namer,
                    ghost probe: Prober, targetDir: string, move: bool, rename: bool, prefix: string,
                    ghost existing0: set<string>)
    returns (r': Flattening, renameCounter': nat)
    requires i < |files|
    requires Flattens(name, probe, targetDir, rename, prefix)
    requires r == FlattenRun(existing0, files[..i], name, probe, move)
    requires rename ==> renameCounter == i + 1
    ensures r' == FlattenRun(existing0, files[..i + 1], name, probe, move)
    ensures rename ==> renameCounter' == i + 2
  {
    var file := files[i];
    var target, probes := FlatTargetOf(r.st.existing, targetDir, file, renameCounter, rename, prefix);
    renameCounter' := if rename then renameCounter + 1 else renameCounter;
    r' := Flattening(Transfer(r.st, file, target, move), r.duplicates + probes);
    FlattenSnoc(existing0, files, name, probe, move, i);
  }

  /** The target of one file as the loop computes it, and the candidates
      the conflict loop tried. */
  method FlatTargetOf(existing: set<string>, targetDir: string, file: string, renameCounter: nat, rename: bool,
                      prefix: string)
    returns (target: string, probes: nat)
    ensures target == FlatTarget(existing, targetDir, file, renameCounter, rename, prefix)
    ensures probes == FlatProbes(existing, targetDir, file, rename)
  {
    var name := PathName(file);
    if rename {
      target := PathJoin(targetDir, FlatName(prefix, renameCounter, Suffix(name)));
      probes := 0;
    } else {
      StemIsInjective(targetDir, name);
      target, probes := FirstFree(existing, PathJoin(targetDir, name), StemCand(targetDir, name));
    }
  }

  /** The first walk of `flatten_images`: the path of every image. */
  method FindImages(source: string, walk: seq<WalkDir>) returns (imageFiles: seq<string>)
    ensures imageFiles == ImagePaths(source, walk)
  {
    imageFiles := [];
    var i := 0;
    while i < |walk|
      invariant 0 <= i <= |walk|
      invariant imageFiles == ImagePaths(source, walk[..i])
    {
      var paths := DirImages(DirPath(source, walk[i]), walk[i].files);
      imageFiles := imageFiles + paths;
      assert walk[..i + 1][..i] == walk[..i];
      i := i + 1;
    }
    assert walk[..i] == walk;
  }

  /** The image paths of one directory, in listing order. */
  method DirImages(dir: string, files: seq<string>) returns (paths: seq<string>)
    ensures paths == JoinAll(dir, ImageNames(files))
  {
    paths := [];
    var j := 0;
    while j < |files|
      invariant 0 <= j <= |files|
      invariant paths == JoinAll(dir, ImageNames(files[..j]))
    {
      ImageNamesStep(files, j);
      JoinAllAppend(dir, ImageNames(files[..j]), ImageIf(files[j]));
      if IsImage(files[j]) {
        paths := paths + [PathJoin(dir, files[j])];
      }
      j := j + 1;
    }
    assert files[..j] == files;
  }
}
