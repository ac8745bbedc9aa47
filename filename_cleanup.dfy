/** The filename cleanup pass: which files it renames, the fixed pipeline
    of rewrites that turns a sorted file's name into a clean one, the
    zero-padded conflict names, and the per-file decisions of a cleanup
    run over a directory. */
module FilenameCleanup {
  import opened Text
  import opened Paths
  import opened Probing

  // ---------------------------------------------------------------------
  // Which files are renamed (`_should_rename_file`)
  // ---------------------------------------------------------------------

  /** Substrings that mark a name left by an earlier sorting run. */
  const Markers: seq<string> := ["[workflow", "$", "batch", "Gen "]

  /** The image extensions the cleanup renames, lower case. */
  const ImageExtensions: seq<string> := [".png", ".jpg", ".jpeg", ".webp"]

  /** `any(p in s for p in pats)`. */
  function ContainsAny(s: string, pats: seq<string>): (r: bool)
    ensures r <==> exists i :: 0 <= i < |pats| && Contains(s, pats[i])
  {
    if pats == [] then false
    else if Contains(s, pats[0]) then true
    else
      var r := ContainsAny(s, pats[1..]);
      assert forall i :: 1 <= i < |pats| ==> pats[i] == pats[1..][i - 1];
      r
  }

  /** `any(s.endswith(e) for e in exts)`. */
  function EndsWithAny(s: string, exts: seq<string>): (r: bool)
    ensures r <==> exists i :: 0 <= i < |exts| && EndsWith(s, exts[i])
  {
    if exts == [] then false
    else if EndsWith(s, exts[0]) then true
    else
      var r := EndsWithAny(s, exts[1..]);
      assert forall i :: 1 <= i < |exts| ==> exts[i] == exts[1..][i - 1];
      r
  }

  /** `_should_rename_file`: the name carries a marker and is an image. */
  function ShouldRename(filename: string): bool
  {
    ContainsAny(filename, Markers) && EndsWithAny(Lower(filename), ImageExtensions)
  }

  /** The name contains `[workflow`, `$`, `batch` or `Gen `, and ends, in
      any case, in `.png`, `.jpg`, `.jpeg` or `.webp`. */
  lemma ShouldRenameSpec(filename: string)
    ensures ShouldRename(filename) <==>
      (Contains(filename, "[workflow") || Contains(filename, "$") || Contains(filename, "batch") ||
       Contains(filename, "Gen ")) &&
      (EndsWith(Lower(filename), ".png") || EndsWith(Lower(filename), ".jpg") ||
       EndsWith(Lower(filename), ".jpeg") || EndsWith(Lower(filename), ".webp"))
  {
    assert Markers[0] == "[workflow" && Markers[1] == "$" && Markers[2] == "batch" && Markers[3] == "Gen ";
    assert ImageExtensions[0] == ".png" && ImageExtensions[1] == ".jpg" && ImageExtensions[2] == ".jpeg";
    assert ImageExtensions[3] == ".webp";
  }

  /** A name ending in `.json` is never an image to rename. */
  lemma JsonNotRenamed(filename: string)
    requires EndsWith(filename, ".json")
    ensures !ShouldRename(filename)
  {
    var low := Lower(filename);
    assert low[|low| - 1] == 'n';
    forall i | 0 <= i < |ImageExtensions| ensures !EndsWith(low, ImageExtensions[i]) {
      var e := ImageExtensions[i];
      assert e[|e| - 1] != 'n';
    }
  }

  // ---------------------------------------------------------------------
  // Regular-expression substitutions
  // ---------------------------------------------------------------------

  /** The length of the longest prefix of `s` whose characters satisfy `p`. */
  function Span(s: string, p: char -> bool): (n: nat)
    ensures n <= |s|
    ensures forall i :: 0 <= i < n ==> p(s[i])
    ensures n < |s| ==> !p(s[n])
  {
    if s != [] && p(s[0]) then 1 + Span(s[1..], p) else 0
  }

  /** A run of one. */
  lemma SpanOne(s: string, p: char -> bool)
    requires s != [] && p(s[0]) && (|s| == 1 || !p(s[1]))
    ensures Span(s, p) == 1
  {
    assert Span(s, p) == 1 + Span(s[1..], p);
  }

  /** `re.sub(pattern, rep, s)` for a pattern that cannot match the empty
      string: `m(t)` is the length of the match at the start of `t`, 0
      when there is none. Scanning resumes after each match. */
  function SubAll(s: string, m: string -> nat, rep: string): string
    decreases |s|
  {
    if s == [] then []
    else if 0 < m(s) <= |s| then rep + SubAll(s[m(s)..], m, rep)
    else [s[0]] + SubAll(s[1..], m, rep)
  }

  /** A pattern that matches wherever a `bad` character starts the text,
      replaced by text without `bad` characters, leaves none behind. */
  lemma {:induction false} SubAllAvoids(s: string, m: string -> nat, rep: string, bad: char -> bool)
    requires forall t: string :: t != [] && bad(t[0]) ==> 0 < m(t) <= |t|
    requires forall i :: 0 <= i < |rep| ==> !bad(rep[i])
    ensures forall i :: 0 <= i < |SubAll(s, m, rep)| ==> !bad(SubAll(s, m, rep)[i])
    decreases |s|
  {
    if s != [] {
      if 0 < m(s) <= |s| {
        SubAllAvoids(s[m(s)..], m, rep, bad);
        var tail := SubAll(s[m(s)..], m, rep);
        assert SubAll(s, m, rep) == rep + tail;
      } else {
        SubAllAvoids(s[1..], m, rep, bad);
      }
    }
  }

  predicate IsUnderscore(c: char) { c == '_' }

  /** `[workflow_test_batch`, the literal start of the first pattern. */
  const Tag: string := "[workflow_test_batch"

  /** `\[workflow_test_batch\d+\]\s*` */
  function TagMatch(s: string): nat
  {
    if StartsWith(s, Tag) then
      var d := Span(s[|Tag|..], IsDigit);
      var close := |Tag| + d;
      if d >= 1 && close < |s| && s[close] == ']' then close + 1 + Span(s[close + 1..], IsSpace) else 0
    else 0
  }

  /** `Gen\s+\d+\s+`; whitespace and digits are disjoint, so each run is
      taken whole. */
  function GenMatch(s: string): nat
  {
    if StartsWith(s, "Gen") then
      var w1 := Span(s[3..], IsSpace);
      var d := Span(s[3 + w1..], IsDigit);
      var w2 := Span(s[3 + w1 + d..], IsSpace);
      if w1 >= 1 && d >= 1 && w2 >= 1 then 3 + w1 + d + w2 else 0
    else 0
  }

  /** `\$\d+` */
  function DollarMatch(s: string): nat
  {
    if s != [] && s[0] == '$' then
      var d := Span(s[1..], IsDigit);
      if d >= 1 then 1 + d else 0
    else 0
  }

  /** `_+` */
  function UnderscoreRun(s: string): nat
  {
    Span(s, IsUnderscore)
  }

  /** `\s+` */
  function SpaceRun(s: string): nat
  {
    Span(s, IsSpace)
  }

  // ---------------------------------------------------------------------
  // Cleaning a name (`_clean_filename`)
  // ---------------------------------------------------------------------

  /** `[\s\-_]` */
  const Separators: set<char> := Whitespace + {'-', '_'}

  /** The six patterns of the list, in order: the workflow tag, `Gen N `,
      `$N` and every underscore are deleted, then separators at either
      end are stripped. */
  function Stripped(name: string): string
  {
    var d := SubAll(MarkersDeleted(name), UnderscoreRun, "");
    TrimRight(TrimLeft(d, Separators), Separators)
  }

  /** The first three patterns: the workflow tag, `Gen N ` and `$N`. */
  function MarkersDeleted(name: string): string
  {
    SubAll(SubAll(SubAll(name, TagMatch, ""), GenMatch, ""), DollarMatch, "")
  }

  /** The clean-up of the remaining artifacts: each whitespace run becomes
      `_`, `_` runs collapse, and `_`/`-` are stripped at the ends. */
  function Tidy(name: string): string
  {
    var e := SubAll(Stripped(name), SpaceRun, "_");
    var f := SubAll(e, UnderscoreRun, "_");
    Trim(f, {'_', '-'})
  }

  /** No two underscores are adjacent. */
  predicate NoDoubleUnderscore(s: string)
  {
    forall i :: 0 <= i < |s| - 1 ==> !(s[i] == '_' && s[i + 1] == '_')
  }

  predicate Spaceless(s: string)
  {
    forall i :: 0 <= i < |s| ==> !IsSpace(s[i])
  }

  /** The shape of a cleaned stem: no whitespace, no `__`, and no `_` or
      `-` at either end. */
  predicate Tidied(s: string)
  {
    Spaceless(s) && NoDoubleUnderscore(s) &&
    (s != [] ==> s[0] != '_' && s[0] != '-' && s[|s| - 1] != '_' && s[|s| - 1] != '-')
  }

  lemma UnderscoreRunMatches()
    ensures forall t: string :: t != [] && IsUnderscore(t[0]) ==> 0 < UnderscoreRun(t) <= |t|
  {
  }

  lemma SpaceRunMatches()
    ensures forall t: string :: t != [] && IsSpace(t[0]) ==> 0 < SpaceRun(t) <= |t|
  {
  }

  /** Deleting `_+` leaves no underscore. */
  lemma DeleteUnderscores(c: string)
    ensures '_' !in SubAll(c, UnderscoreRun, "")
  {
    UnderscoreRunMatches();
    SubAllAvoids(c, UnderscoreRun, "", IsUnderscore);
    var d := SubAll(c, UnderscoreRun, "");
    assert forall i :: 0 <= i < |d| ==> d[i] != '_';
  }

  /** The underscore pattern removes every underscore, single ones too. */
  lemma StrippedHasNoUnderscore(name: string)
    ensures '_' !in Stripped(name)
  {
    var c := MarkersDeleted(name);
    var d := SubAll(c, UnderscoreRun, "");
    DeleteUnderscores(c);
    TrimLeftSub(d, Separators);
    TrimRightSub(TrimLeft(d, Separators), Separators);
  }

  /** A text without whitespace at its start is kept by the whitespace
      substitution up to its first character. */
  lemma SpacesKeepHead(t: string)
    requires t != [] && !IsSpace(t[0])
    ensures SubAll(t, SpaceRun, "_") == [t[0]] + SubAll(t[1..], SpaceRun, "_")
  {
  }

  /** Turning whitespace runs of an underscore-free text into `_` leaves
      no `__`: each run becomes one `_`, and what follows a run is neither
      whitespace nor an underscore. */
  lemma {:induction false} SpacesToUnderscores(s: string)
    requires '_' !in s
    ensures NoDoubleUnderscore(SubAll(s, SpaceRun, "_"))
    decreases |s|
  {
    if s != [] {
      var r := SubAll(s, SpaceRun, "_");
      var k := SpaceRun(s);
      if 0 < k {
        var rest := s[k..];
        SpacesToUnderscores(rest);
        var tail := SubAll(rest, SpaceRun, "_");
        assert r == "_" + tail;
        if rest != [] {
          assert rest[0] == s[k] && !IsSpace(rest[0]);
          SpacesKeepHead(rest);
          assert tail[0] == rest[0] && rest[0] in s;
        }
      } else {
        SpacesToUnderscores(s[1..]);
        assert s[0] in s;
      }
    }
  }

  /** Collapsing `_` runs changes nothing in a text without `__`. */
  lemma {:induction false} CollapseNoOp(s: string)
    requires NoDoubleUnderscore(s)
    ensures SubAll(s, UnderscoreRun, "_") == s
    decreases |s|
  {
    if s != [] {
      var rest := s[1..];
      assert NoDoubleUnderscore(rest) by {
        forall i | 0 <= i < |rest| - 1 ensures !(rest[i] == '_' && rest[i + 1] == '_') {
          assert rest[i] == s[i + 1] && rest[i + 1] == s[i + 2];
        }
      }
      CollapseNoOp(rest);
      if s[0] == '_' {
        SpanOne(s, IsUnderscore);
        assert s == "_" + rest;
      }
    }
  }

  /** Underscores of the original name are all deleted before whitespace
      becomes `_`, so the collapse step has nothing left to collapse. */
  lemma TidyUnderscores(name: string)
    ensures '_' !in Stripped(name)
    ensures Tidy(name) == Trim(SubAll(Stripped(name), SpaceRun, "_"), {'_', '-'})
  {
    StrippedHasNoUnderscore(name);
    SpacesToUnderscores(Stripped(name));
    CollapseNoOp(SubAll(Stripped(name), SpaceRun, "_"));
  }

  /** Whitespace runs replaced by `_` leave no whitespace. */
  lemma SpacesGone(s: string)
    ensures Spaceless(SubAll(s, SpaceRun, "_"))
  {
    SpaceRunMatches();
    SubAllAvoids(s, SpaceRun, "_", IsSpace);
  }

  /** A slice keeps the shape of a text without whitespace and `__`. */
  lemma SliceShape(e: string, a: nat, b: nat)
    requires a <= b <= |e| && NoDoubleUnderscore(e) && Spaceless(e)
    ensures NoDoubleUnderscore(e[a..b]) && Spaceless(e[a..b])
  {
    var t := e[a..b];
    forall i | 0 <= i < |t| - 1 ensures !(t[i] == '_' && t[i + 1] == '_') {
      assert t[i] == e[a + i] && t[i + 1] == e[a + i + 1];
    }
    forall i | 0 <= i < |t| ensures !IsSpace(t[i]) {
      assert t[i] == e[a + i];
    }
  }

  /** Stripping `_` and `-` at the ends keeps that shape, and leaves no
      `_` or `-` at either end. */
  lemma TrimShape(e: string)
    requires NoDoubleUnderscore(e) && Spaceless(e)
    ensures Tidied(Trim(e, {'_', '-'}))
  {
    TrimKeepsShape(e, {'_', '-'});
  }

  lemma TrimKeepsShape(e: string, drop: set<char>)
    requires NoDoubleUnderscore(e) && Spaceless(e)
    ensures NoDoubleUnderscore(Trim(e, drop)) && Spaceless(Trim(e, drop))
  {
    var a := TrimIsSlice(e, drop);
    SliceShape(e, a, a + |Trim(e, drop)|);
  }

  /** A trimmed text is a slice of the text. */
  lemma TrimIsSlice(e: string, drop: set<char>) returns (a: nat)
    ensures a + |Trim(e, drop)| <= |e| && Trim(e, drop) == e[a..a + |Trim(e, drop)|]
  {
    var l := TrimLeft(e, drop);
    var t := TrimRight(l, drop);
    a := |e| - |l|;
    assert l == e[a..];
    assert t == l[..|t|] == e[a..a + |t|];
  }

  /** The tidied stem has no whitespace, no `__`, and no `_` or `-` at
      either end. */
  lemma TidySpec(name: string)
    ensures Tidied(Tidy(name))
  {
    TidyUnderscores(name);
    SpacesGone(Stripped(name));
    SpacesToUnderscores(Stripped(name));
    TrimShape(SubAll(Stripped(name), SpaceRun, "_"));
  }

  /** The stems `_clean_filename` replaces by `prefix_timestamp`. */
  predicate IsGeneric(stem: string, prefix: string)
  {
    Lower(stem) in [Lower(prefix), "image", "img", "pic", "photo"]
  }

  /** `_clean_filename` on the `splitext` stem; `now` is `int(time.time())`. */
  function CleanStem(name: string, prefix: string, now: nat): string
  {
    var cleaned := Tidy(name);
    var cleaned := if cleaned == "" then prefix else cleaned;
    if IsGeneric(cleaned, prefix) then prefix + "_" + NatToString(now) else cleaned
  }

  /** `_clean_filename`: the cleaned stem followed by the original
      extension. */
  function CleanFilename(filename: string, prefix: string, now: nat): string
  {
    CleanStem(SplitExt(filename).0, prefix, now) + SplitExt(filename).1
  }

  /** The stem is never empty: it is `prefix_timestamp` when nothing is
      left or what is left is generic (an empty result becomes the prefix,
      which is always generic), otherwise the tidied text. */
  lemma CleanStemSpec(name: string, prefix: string, now: nat)
    ensures CleanStem(name, prefix, now) != ""
    ensures Tidy(name) == "" || IsGeneric(Tidy(name), prefix) ==>
      CleanStem(name, prefix, now) == prefix + "_" + NatToString(now)
    ensures Tidy(name) != "" && !IsGeneric(Tidy(name), prefix) ==>
      CleanStem(name, prefix, now) == Tidy(name) && Tidied(Tidy(name))
  {
    TidySpec(name);
    assert IsGeneric(prefix, prefix);
  }

  /** The extension is kept, and the stem before it is the cleaned one. */
  lemma CleanFilenameSpec(filename: string, prefix: string, now: nat)
    ensures var ext := SplitExt(filename).1;
      var r := CleanFilename(filename, prefix, now);
      EndsWith(r, ext) && |r| > |ext| && r[..|r| - |ext|] == CleanStem(SplitExt(filename).0, prefix, now)
  {
    CleanStemNonEmpty(SplitExt(filename).0, prefix, now);
    ConcatParts(CleanStem(SplitExt(filename).0, prefix, now), SplitExt(filename).1);
  }

  lemma CleanStemNonEmpty(name: string, prefix: string, now: nat)
    ensures CleanStem(name, prefix, now) != ""
  {
    CleanStemSpec(name, prefix, now);
  }

  lemma ConcatParts(x: string, y: string)
    ensures EndsWith(x + y, y) && (x + y)[..|x + y| - |y|] == x
  {
    assert (x + y)[|x|..] == y;
    assert (x + y)[..|x|] == x;
  }

  // ---------------------------------------------------------------------
  // Conflict names (`_resolve_naming_conflict`)
  // ---------------------------------------------------------------------

  /** The name `_resolve_naming_conflict` settles on. */
  function ConflictFree(taken: set<string>, path: string): string
  {
    PaddedIsInjective(path);
    FreeName(taken, path, PaddedCand(path))
  }

  /** The path itself when it is free, else `name_NNNext` for the smallest
      free `NNN >= 001`; never a taken name. */
  lemma ConflictFreeSpec(taken: set<string>, path: string)
    ensures ConflictFree(taken, path) !in taken
    ensures path !in taken ==> ConflictFree(taken, path) == path
    ensures path in taken ==> exists k: nat ::
      k >= 1 && ConflictFree(taken, path) == Padded(path, k) && forall j: nat :: 1 <= j < k ==> Padded(path, j) in taken
  {
    PaddedIsInjective(path);
    FreeNameSpec(taken, path, PaddedCand(path));
    if path in taken {
      var k := Probes(taken, path, PaddedCand(path));
      assert FirstFreeAt(taken, PaddedCand(path), k);
      forall j: nat ensures PaddedCand(path)(j) == Padded(path, j) {
      }
      assert k >= 1 && ConflictFree(taken, path) == Padded(path, k);
    }
  }

  /** `_resolve_naming_conflict`: while the path exists, try
      `f"{name}_{counter:03d}{ext}"` with the next counter. */
  method ResolveNamingConflict(path: string, taken: set<string>) returns (r: string)
    ensures r == ConflictFree(taken, path)
  {
    PaddedIsInjective(path);
    var probes;
    r, probes := FirstFree(taken, path, PaddedCand(path));
  }

  // ---------------------------------------------------------------------
  // Cleaning a directory (`cleanup_directory`)
  // ---------------------------------------------------------------------

  /** The arguments of `cleanup_directory`; `now` stands for the clock. */
  datatype Options = Options(removeMetadata: bool, renameFiles: bool, prefix: string, dryRun: bool, now: nat)

  datatype CleanupStats = CleanupStats(filesRenamed: nat, metadataFilesRemoved: nat, errors: nat, totalFiles: nat)

  /** The counters and the set of paths that exist. */
  datatype Cleanup = Cleanup(stats: CleanupStats, existing: set<string>)

  /** Files the cleanup deletes when asked to. */
  predicate IsMetadataFile(path: string)
  {
    EndsWith(Basename(path), "_metadata.json")
  }

  /** What the loop does with one file. */
  datatype Action = Remove | Rename(newPath: string) | Keep

  /** The decision for one file: metadata files are removed when asked;
      otherwise a file whose name qualifies is renamed to the cleaned name
      in the same directory, unless cleaning leaves the name as it is. */
  function Decide(path: string, o: Options): (a: Action)
    ensures a.Remove? <==> o.removeMetadata && IsMetadataFile(path)
    ensures a.Rename? ==> o.renameFiles && ShouldRename(Basename(path))
    ensures a.Rename? ==> CleanFilename(Basename(path), o.prefix, o.now) != Basename(path)
  {
    var name := Basename(path);
    if o.removeMetadata && IsMetadataFile(path) then Remove
    else if o.renameFiles && ShouldRename(name) && CleanFilename(name, o.prefix, o.now) != name then
      Rename(PathJoin(Dirname(path), CleanFilename(name, o.prefix, o.now)))
    else Keep
  }

  /** Carrying out an action. Removing or moving a path that does not
      exist is the error case; a dry run only counts. A move goes to the
      first free name (`_resolve_naming_conflict`). */
  function Apply(c: Cleanup, path: string, a: Action, dryRun: bool): Cleanup
  {
    var st := c.stats;
    match a
    case Remove =>
      if dryRun then c.(stats := st.(metadataFilesRemoved := st.metadataFilesRemoved + 1))
      else if path in c.existing then
        Cleanup(st.(metadataFilesRemoved := st.metadataFilesRemoved + 1), c.existing - {path})
      else c.(stats := st.(errors := st.errors + 1))
    case Rename(newPath) =>
      if dryRun then c.(stats := st.(filesRenamed := st.filesRenamed + 1))
      else if path in c.existing then
        Cleanup(st.(filesRenamed := st.filesRenamed + 1), c.existing - {path} + {ConflictFree(c.existing, newPath)})
      else c.(stats := st.(errors := st.errors + 1))
    case Keep => c
  }

  /** One file of the loop. */
  function Step(c: Cleanup, path: string, o: Options): Cleanup
  {
    Apply(c, path, Decide(path, o), o.dryRun)
  }

  /** The loop over the files found, in order. */
  function CleanupRun(c: Cleanup, files: seq<string>, o: Options): Cleanup
  {
    if files == [] then c
    else Step(CleanupRun(c, files[..|files| - 1], o), files[|files| - 1], o)
  }

  /** The sum of the three per-file counters. */
  function Counted(st: CleanupStats): nat
  {
    st.filesRenamed + st.metadataFilesRemoved + st.errors
  }

  /** Each action moves at most one counter by one and never touches the
      total; a move goes to a path that does not exist. */
  lemma ApplySpec(c: Cleanup, path: string, a: Action, dryRun: bool)
    ensures var r := Apply(c, path, a, dryRun);
      r.stats.totalFiles == c.stats.totalFiles &&
      r.stats.filesRenamed >= c.stats.filesRenamed && r.stats.metadataFilesRemoved >= c.stats.metadataFilesRemoved &&
      r.stats.errors >= c.stats.errors && Counted(r.stats) <= Counted(c.stats) + 1
    ensures var r := Apply(c, path, a, dryRun);
      r.stats.filesRenamed > c.stats.filesRenamed ==> a.Rename?
    ensures var r := Apply(c, path, a, dryRun);
      !dryRun && a.Rename? && path in c.existing ==>
        ConflictFree(c.existing, a.newPath) !in c.existing &&
        r.existing == c.existing - {path} + {ConflictFree(c.existing, a.newPath)}
  {
    if a.Rename? {
      ConflictFreeSpec(c.existing, a.newPath);
    }
  }

  /** `_metadata.json` files are never renamed, whether or not they are
      removed. */
  lemma MetadataNeverRenamed(c: Cleanup, path: string, o: Options)
    requires IsMetadataFile(path)
    ensures Step(c, path, o).stats.filesRenamed == c.stats.filesRenamed
  {
    var name := Basename(path);
    assert EndsWith(name, ".json") by {
      assert name[|name| - 5..] == name[|name| - 14..][9..];
    }
    JsonNotRenamed(name);
    ApplySpec(c, path, Decide(path, o), o.dryRun);
  }

  /** A dry run changes the counters only: no file is removed or moved and
      no error is counted. */
  lemma {:induction false} DryRunKeepsFiles(c: Cleanup, files: seq<string>, o: Options)
    requires o.dryRun
    ensures CleanupRun(c, files, o).existing == c.existing
    ensures CleanupRun(c, files, o).stats.errors == c.stats.errors
  {
    if files != [] {
      DryRunKeepsFiles(c, files[..|files| - 1], o);
    }
  }

  /** One action keeps the number of files plus the number removed. */
  lemma ApplyConserves(c: Cleanup, path: string, a: Action)
    ensures var r := Apply(c, path, a, false);
      |r.existing| + r.stats.metadataFilesRemoved == |c.existing| + c.stats.metadataFilesRemoved
  {
    if path in c.existing {
      assert |c.existing - {path}| == |c.existing| - 1;
      if a.Rename? {
        ApplySpec(c, path, a, false);
        var target := ConflictFree(c.existing, a.newPath);
        assert |c.existing - {path} + {target}| == |c.existing|;
      }
    }
  }

  /** No file is lost or overwritten: the number of files drops by exactly
      the number of metadata files removed. */
  lemma {:induction false} FilesConserved(c: Cleanup, files: seq<string>, o: Options)
    requires !o.dryRun
    ensures var r := CleanupRun(c, files, o);
      |r.existing| + r.stats.metadataFilesRemoved == |c.existing| + c.stats.metadataFilesRemoved
  {
    if files != [] {
      var n := |files| - 1;
      FilesConserved(c, files[..n], o);
      ApplyConserves(CleanupRun(c, files[..n], o), files[n], Decide(files[n], o));
    }
  }

  /** Every file processed moves at most one counter. */
  lemma {:induction false} RunCounted(c: Cleanup, files: seq<string>, o: Options)
    ensures Counted(CleanupRun(c, files, o).stats) <= Counted(c.stats) + |files|
    ensures CleanupRun(c, files, o).stats.totalFiles == c.stats.totalFiles
  {
    if files != [] {
      var n := |files| - 1;
      RunCounted(c, files[..n], o);
      ApplySpec(CleanupRun(c, files[..n], o), files[n], Decide(files[n], o), o.dryRun);
    }
  }

  /** Carrying out the decision for one file, as the loop body does. */
  method ApplyAction(c: Cleanup, path: string, action: Action, dryRun: bool) returns (r: Cleanup)
    ensures r == Apply(c, path, action, dryRun)
  {
    var st := c.stats;
    r := c;
    match action {
      case Remove =>
        if dryRun {
          r := c.(stats := st.(metadataFilesRemoved := st.metadataFilesRemoved + 1));
        } else if path in c.existing {
          r := Cleanup(st.(metadataFilesRemoved := st.metadataFilesRemoved + 1), c.existing - {path});
        } else {
          r := c.(stats := st.(errors := st.errors + 1));
        }
      case Rename(newPath) =>
        if dryRun {
          r := c.(stats := st.(filesRenamed := st.filesRenamed + 1));
        } else if path in c.existing {
          var target := ResolveNamingConflict(newPath, c.existing);
          r := Cleanup(st.(filesRenamed := st.filesRenamed + 1), c.existing - {path} + {target});
        } else {
          r := c.(stats := st.(errors := st.errors + 1));
        }
      case Keep =>
    }
  }

  class FilenameCleanup {
    var stats: CleanupStats

    constructor()
      ensures stats == CleanupStats(0, 0, 0, 0)
    {
      stats := CleanupStats(0, 0, 0, 0);
    }

    /** `cleanup_directory` over the files the walk found: the counters
        start again from zero, and the result is whether no error
        happened. `existing` is the set of paths that exist afterwards. */
    method CleanupDirectory(files: seq<string>, o: Options, existing0: set<string>)
      returns (ok: bool, existing: set<string>)
      modifies this
      ensures var r := CleanupRun(Cleanup(CleanupStats(0, 0, 0, |files|), existing0), files, o);
        stats == r.stats && existing == r.existing
      ensures ok <==> stats.errors == 0
    {
      var c := Cleanup(CleanupStats(0, 0, 0, |files|), existing0);
      var c0 := c;
      var i := 0;
      while i < |files|
        invariant 0 <= i <= |files|
        invariant c == CleanupRun(c0, files[..i], o)
      {
        assert files[..i + 1][..i] == files[..i];
        c := ApplyAction(c, files[i], Decide(files[i], o), o.dryRun);
        i := i + 1;
      }
      assert files[..i] == files;
      stats := c.stats;
      existing := c.existing;
      ok := stats.errors == 0;
    }
  }
}
