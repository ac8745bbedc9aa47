/** The colour sorter: the nearest palette category of a dominant colour,
    the grouping of pixel values, and the per-category numbering of the
    files copied or moved into the category folders. */
module ColorSorter {
  import opened Text
  import opened Paths
  import opened Probing
  import opened FileOps
  import opened Counting

  datatype Rgb = Rgb(r: int, g: int, b: int)

  /** `COLOR_CATEGORIES`, in dictionary order: each category and its
      reference colours. */
  const ColorCategories: seq<(string, seq<Rgb>)> := [
    ("Red", [Rgb(255, 0, 0), Rgb(220, 20, 60), Rgb(178, 34, 34), Rgb(139, 0, 0)]),
    ("Orange", [Rgb(255, 165, 0), Rgb(255, 140, 0), Rgb(255, 69, 0), Rgb(255, 99, 71)]),
    ("Yellow", [Rgb(255, 255, 0), Rgb(255, 215, 0), Rgb(218, 165, 32), Rgb(184, 134, 11)]),
    ("Green", [Rgb(0, 255, 0), Rgb(34, 139, 34), Rgb(0, 128, 0), Rgb(46, 125, 50)]),
    ("Blue", [Rgb(0, 0, 255), Rgb(30, 144, 255), Rgb(0, 191, 255), Rgb(70, 130, 180)]),
    ("Purple", [Rgb(128, 0, 128), Rgb(75, 0, 130), Rgb(148, 0, 211), Rgb(138, 43, 226)]),
    ("Pink", [Rgb(255, 192, 203), Rgb(255, 20, 147), Rgb(219, 112, 147), Rgb(199, 21, 133)]),
    ("Brown", [Rgb(165, 42, 42), Rgb(139, 69, 19), Rgb(160, 82, 45), Rgb(210, 180, 140)]),
    ("Black", [Rgb(0, 0, 0), Rgb(25, 25, 25), Rgb(50, 50, 50), Rgb(75, 75, 75)]),
    ("White", [Rgb(255, 255, 255), Rgb(248, 248, 255), Rgb(245, 245, 245), Rgb(220, 220, 220)]),
    ("Gray", [Rgb(128, 128, 128), Rgb(105, 105, 105), Rgb(169, 169, 169), Rgb(192, 192, 192)])
  ]

  /** The category of a colour that has none. */
  const Unknown := "Unknown"

  // ---------------------------------------------------------------------
  // Grouping pixel values (`get_dominant_color`)
  // ---------------------------------------------------------------------

  /** `c // 10 * 10`: floor division, which Dafny's `/` agrees with for a
      positive divisor. */
  function Quantize(c: int): int
  {
    c / 10 * 10
  }

  /** A grouped value is the multiple of 10 at most 9 below the value, and
      grouping it again changes nothing; pixel values stay in 0..250. */
  lemma QuantizeSpec(c: int)
    ensures Quantize(c) % 10 == 0 && c - 10 < Quantize(c) <= c
    ensures Quantize(Quantize(c)) == Quantize(c)
    ensures 0 <= c <= 255 ==> 0 <= Quantize(c) <= 250
  {
  }

  /** `(r//10*10, g//10*10, b//10*10)`. */
  function Grouped(p: Rgb): Rgb
  {
    Rgb(Quantize(p.r), Quantize(p.g), Quantize(p.b))
  }

  /** Pixels whose channels fall in the same tens are counted as one
      colour, and a grouped colour is its own group. */
  lemma GroupedSpec(p: Rgb, q: Rgb)
    ensures Grouped(Grouped(p)) == Grouped(p)
    ensures Grouped(p) == Grouped(q) <==> p.r / 10 == q.r / 10 && p.g / 10 == q.g / 10 && p.b / 10 == q.b / 10
  {
    QuantizeSpec(p.r);
    QuantizeSpec(p.g);
    QuantizeSpec(p.b);
  }

  // ---------------------------------------------------------------------
  // The nearest category (`categorize_color`)
  // ---------------------------------------------------------------------

  /** The squared Euclidean distance in RGB space. */
  function SqDist(c: Rgb, p: Rgb): (d: int)
    ensures d >= 0
  {
    var dr, dg, db := c.r - p.r, c.g - p.g, c.b - p.b;
    Square(dr);
    Square(dg);
    Square(db);
    dr * dr + dg * dg + db * db
  }

  lemma Square(x: int)
    ensures x * x >= 0
    ensures x * x == 0 <==> x == 0
  {
    if x < 0 {
      assert x * x == (-x) * (-x);
    }
  }

  /** A colour is at distance 0 exactly from itself. */
  lemma SqDistZero(c: Rgb, p: Rgb)
    ensures SqDist(c, p) == 0 <==> c == p
  {
    Square(c.r - p.r);
    Square(c.g - p.g);
    Square(c.b - p.b);
  }

  /** The reference colours of one category, each tagged with the
      category. */
  function Tagged(name: string, colors: seq<Rgb>): (es: seq<(string, Rgb)>)
    ensures |es| == |colors|
    ensures forall k :: 0 <= k < |es| ==> es[k] == (name, colors[k])
  {
    if colors == [] then [] else Tagged(name, colors[..|colors| - 1]) + [(name, colors[|colors| - 1])]
  }

  /** The palette entries in the order the two loops visit them. */
  function Entries(cats: seq<(string, seq<Rgb>)>): (es: seq<(string, Rgb)>)
  {
    if cats == [] then []
    else
      var n := |cats| - 1;
      Entries(cats[..n]) + Tagged(cats[n].0, cats[n].1)
  }

  /** Every entry carries the name of one of the categories. */
  lemma {:induction false} EntriesNamed(cats: seq<(string, seq<Rgb>)>, k: nat)
    requires k < |Entries(cats)|
    ensures exists i :: 0 <= i < |cats| && Entries(cats)[k].0 == cats[i].0
  {
    var n := |cats| - 1;
    var front := Entries(cats[..n]);
    if k < |front| {
      EntriesNamed(cats[..n], k);
      var i :| 0 <= i < n && front[k].0 == cats[..n][i].0;
      assert Entries(cats)[k] == front[k];
    } else {
      assert Entries(cats)[k].0 == cats[n].0;
    }
  }

  /** The running pair of the loops: the best category so far and the
      smallest distance so far (`None` stands for `float('inf')`). */
  datatype Best = Best(category: string, minDistance: Option<int>)

  /** One comparison: the entry wins only when strictly closer. */
  function Pick(best: Best, c: Rgb, e: (string, Rgb)): Best
  {
    var d := SqDist(c, e.1);
    if best.minDistance.None? || d < best.minDistance.value then Best(e.0, Some(d)) else best
  }

  /** The loops over `entries`, from `("Unknown", inf)`. */
  function Scan(c: Rgb, entries: seq<(string, Rgb)>): (best: Best)
    ensures best.minDistance.Some? ==> best.minDistance.value >= 0
    ensures best.minDistance.None? <==> entries == []
  {
    if entries == [] then Best(Unknown, None)
    else Pick(Scan(c, entries[..|entries| - 1]), c, entries[|entries| - 1])
  }

  /** Entry `k` is at the smallest distance from `c`, and every entry
      before it is strictly farther. */
  ghost predicate IsNearest(c: Rgb, entries: seq<(string, Rgb)>, k: int)
  {
    0 <= k < |entries| &&
    (forall j :: 0 <= j < |entries| ==> SqDist(c, entries[k].1) <= SqDist(c, entries[j].1)) &&
    (forall j :: 0 <= j < k ==> SqDist(c, entries[k].1) < SqDist(c, entries[j].1))
  }

  /** At most one entry is the earliest nearest one. */
  lemma NearestUnique(c: Rgb, entries: seq<(string, Rgb)>, k1: int, k2: int)
    requires IsNearest(c, entries, k1) && IsNearest(c, entries, k2)
    ensures k1 == k2
  {
    if k1 < k2 {
      EarlierFarther(c, entries, k1, k2);
    } else if k2 < k1 {
      EarlierFarther(c, entries, k2, k1);
    }
  }

  lemma EarlierFarther(c: Rgb, entries: seq<(string, Rgb)>, j: int, k: int)
    requires IsNearest(c, entries, k) && 0 <= j < k
    ensures SqDist(c, entries[k].1) < SqDist(c, entries[j].1)
  {
  }

  /** The scan ends on the earliest entry at the smallest distance: strict
      `<` lets a later entry at the same distance lose. */
  lemma {:induction false} ScanNearest(c: Rgb, entries: seq<(string, Rgb)>)
    requires entries != []
    ensures exists k ::
      IsNearest(c, entries, k) && Scan(c, entries) == Best(entries[k].0, Some(SqDist(c, entries[k].1)))
  {
    var n := |entries| - 1;
    var front := entries[..n];
    if front == [] {
      assert Scan(c, entries) == Pick(Scan(c, []), c, entries[0]);
      assert IsNearest(c, entries, 0);
    } else {
      ScanNearest(c, front);
      var k :| IsNearest(c, front, k) && Scan(c, front) == Best(front[k].0, Some(SqDist(c, front[k].1)));
      assert Scan(c, entries) == Pick(Scan(c, front), c, entries[n]);
      if SqDist(c, entries[n].1) < SqDist(c, front[k].1) {
        NearestLast(c, entries, k);
        assert Scan(c, entries) == Best(entries[n].0, Some(SqDist(c, entries[n].1)));
      } else {
        NearestKeep(c, entries, k);
        assert Scan(c, entries) == Best(entries[k].0, Some(SqDist(c, entries[k].1)));
      }
    }
  }

  /** A last entry strictly nearer than the nearest before it is nearest. */
  lemma NearestLast(c: Rgb, entries: seq<(string, Rgb)>, k: int)
    requires entries != [] && IsNearest(c, entries[..|entries| - 1], k)
    requires SqDist(c, entries[|entries| - 1].1) < SqDist(c, entries[k].1)
    ensures IsNearest(c, entries, |entries| - 1)
  {
    var front := entries[..|entries| - 1];
    forall j | 0 <= j < |front| ensures SqDist(c, entries[k].1) <= SqDist(c, entries[j].1) {
      assert front[k] == entries[k] && front[j] == entries[j];
    }
  }

  /** Otherwise the nearest before it stays nearest. */
  lemma NearestKeep(c: Rgb, entries: seq<(string, Rgb)>, k: int)
    requires entries != [] && IsNearest(c, entries[..|entries| - 1], k)
    requires SqDist(c, entries[k].1) <= SqDist(c, entries[|entries| - 1].1)
    ensures IsNearest(c, entries, k)
  {
    var front := entries[..|entries| - 1];
    forall j | 0 <= j < |front| ensures SqDist(c, entries[k].1) <= SqDist(c, entries[j].1) {
      assert front[k] == entries[k] && front[j] == entries[j];
    }
    forall j | 0 <= j < k ensures SqDist(c, entries[k].1) < SqDist(c, entries[j].1) {
      assert front[k] == entries[k] && front[j] == entries[j];
    }
  }

  /** `categorize_color`: "Unknown" when there is no colour, else the
      category of the nearest reference colour. */
  function Categorize(rgb: Option<Rgb>): string
  {
    if rgb.None? then Unknown else Scan(rgb.value, Entries(ColorCategories)).category
  }

  lemma PaletteEntries()
    ensures |Entries(ColorCategories)| >= 4
    ensures forall i :: 0 <= i < |ColorCategories| ==> ColorCategories[i].0 != Unknown
  {
    var n := |ColorCategories| - 1;
    assert |Tagged(ColorCategories[n].0, ColorCategories[n].1)| == 4;
  }

  /** No colour means "Unknown", and only then: a colour always gets one
      of the eleven categories, the one of the earliest nearest reference
      colour. */
  lemma CategorizeSpec(rgb: Option<Rgb>)
    ensures rgb.None? <==> Categorize(rgb) == Unknown
    ensures rgb.Some? ==> exists i :: 0 <= i < |ColorCategories| && Categorize(rgb) == ColorCategories[i].0
    ensures rgb.Some? ==> exists k ::
      IsNearest(rgb.value, Entries(ColorCategories), k) && Categorize(rgb) == Entries(ColorCategories)[k].0
  {
    if rgb.Some? {
      PaletteEntries();
      var entries := Entries(ColorCategories);
      ScanNearest(rgb.value, entries);
      var k :| IsNearest(rgb.value, entries, k) &&
        Scan(rgb.value, entries) == Best(entries[k].0, Some(SqDist(rgb.value, entries[k].1)));
      EntriesNamed(ColorCategories, k);
    }
  }

  /** A colour that is a reference colour gets the category of its first
      occurrence in the palette. */
  lemma ExactColour(c: Rgb, k: nat)
    requires k < |Entries(ColorCategories)| && Entries(ColorCategories)[k].1 == c
    requires forall j :: 0 <= j < k ==> Entries(ColorCategories)[j].1 != c
    ensures Categorize(Some(c)) == Entries(ColorCategories)[k].0
  {
    var entries := Entries(ColorCategories);
    SqDistZero(c, c);
    forall j | 0 <= j < k ensures SqDist(c, entries[k].1) < SqDist(c, entries[j].1) {
      SqDistZero(c, entries[j].1);
    }
    assert IsNearest(c, entries, k);
    CategorizeSpec(Some(c));
    var k' :| IsNearest(c, entries, k') && Categorize(Some(c)) == entries[k'].0;
    NearestUnique(c, entries, k, k');
  }

  /** `x` is a square root of `d`, as `d ** 0.5` is. */
  ghost predicate IsRoot(x: real, d: int)
  {
    x >= 0.0 && x * x == d as real
  }

  /** Comparing the square roots of two distances is comparing the
      distances, so the squared distance picks the same entries as the
      `** 0.5` distance. */
  lemma RootOrder(x: real, d: int, y: real, e: int)
    requires IsRoot(x, d) && IsRoot(y, e)
    ensures x < y <==> d < e
  {
    if x < y {
      SquareLess(x, y);
    } else if y < x {
      SquareLess(y, x);
    }
  }

  lemma SquareLess(x: real, y: real)
    requires 0.0 <= x < y
    ensures x * x < y * y
  {
    PositiveProduct(y - x, y + x);
    assert (y - x) * (y + x) == y * y - x * x;
  }

  lemma PositiveProduct(a: real, b: real)
    requires a > 0.0 && b > 0.0
    ensures a * b > 0.0
  {
  }

  /** `root` is the square root on the distances. */
  ghost predicate IsSqrt(root: int -> real)
  {
    forall d :: d >= 0 ==> IsRoot(root(d), d)
  }

  lemma RootCompare(root: int -> real, d: int, e: int)
    requires IsSqrt(root) && d >= 0 && e >= 0
    ensures root(d) < root(e) <==> d < e
  {
    RootOrder(root(d), d, root(e), e);
  }

  /** The loops as written, comparing `** 0.5` distances: `root(d)` is
      the square root of `d`. */
  ghost function RootScan(c: Rgb, entries: seq<(string, Rgb)>, root: int -> real): (string, Option<real>)
  {
    if entries == [] then (Unknown, None)
    else
      var best := RootScan(c, entries[..|entries| - 1], root);
      var e := entries[|entries| - 1];
      var distance := root(SqDist(c, e.1));
      if best.1.None? || distance < best.1.value then (e.0, Some(distance)) else best
  }

  /** Comparing squared distances picks the same category, and the smallest
      distance is the root of the smallest squared distance. */
  lemma {:induction false} RootScanAgrees(c: Rgb, entries: seq<(string, Rgb)>, root: int -> real)
    requires IsSqrt(root)
    ensures RootScan(c, entries, root).0 == Scan(c, entries).category
    ensures RootScan(c, entries, root).1.None? <==> Scan(c, entries).minDistance.None?
    ensures Scan(c, entries).minDistance.Some? ==>
      RootScan(c, entries, root).1 == Some(root(Scan(c, entries).minDistance.value))
  {
    if entries != [] {
      var front := entries[..|entries| - 1];
      RootScanAgrees(c, front, root);
      var best := Scan(c, front);
      var d := SqDist(c, entries[|entries| - 1].1);
      if best.minDistance.Some? {
        RootCompare(root, d, best.minDistance.value);
      }
    }
  }

  /** `categorize_color`. */
  method CategorizeColor(rgb: Option<Rgb>) returns (category: string)
    ensures category == Categorize(rgb)
  {
    if rgb.None? {
      return Unknown;
    }
    var best := NearestCategory(rgb.value, ColorCategories);
    category := best.category;
  }

  /** The two nested loops of `categorize_color` over a palette. */
  method NearestCategory(c: Rgb, cats: seq<(string, seq<Rgb>)>) returns (best: Best)
    ensures best == Scan(c, Entries(cats))
  {
    best := Best(Unknown, None);
    var i := 0;
    while i < |cats|
      invariant 0 <= i <= |cats|
      invariant best == Scan(c, Entries(cats[..i]))
    {
      var name := cats[i].0;
      var colors := cats[i].1;
      ghost var done := Entries(cats[..i]);
      var j := 0;
      assert done + Tagged(name, colors[..0]) == done;
      while j < |colors|
        invariant 0 <= j <= |colors|
        invariant best == Scan(c, done + Tagged(name, colors[..j]))
      {
        var distance := SqDist(c, colors[j]);
        if best.minDistance.None? || distance < best.minDistance.value {
          best := Best(name, Some(distance));
        }
        ScanStep(c, done, name, colors, j);
        j := j + 1;
      }
      EntriesStep(cats, i);
      i := i + 1;
    }
    assert cats[..i] == cats;
  }

  lemma ScanStep(c: Rgb, done: seq<(string, Rgb)>, name: string, colors: seq<Rgb>, j: nat)
    requires j < |colors|
    ensures Scan(c, done + Tagged(name, colors[..j + 1])) ==
      Pick(Scan(c, done + Tagged(name, colors[..j])), c, (name, colors[j]))
  {
    assert colors[..j + 1][..j] == colors[..j];
    var es := done + Tagged(name, colors[..j + 1]);
    assert es[..|es| - 1] == done + Tagged(name, colors[..j]);
  }

  lemma EntriesStep(cats: seq<(string, seq<Rgb>)>, i: nat)
    requires i < |cats|
    ensures Entries(cats[..i + 1]) == Entries(cats[..i]) + Tagged(cats[i].0, cats[i].1[..|cats[i].1|])
  {
    assert cats[..i + 1][..i] == cats[..i];
    assert cats[i].1[..|cats[i].1|] == cats[i].1;
  }

  // ---------------------------------------------------------------------
  // Sorting into category folders (`sort_by_color`)
  // ---------------------------------------------------------------------

  /** The category of each file, from its dominant colour. */
  function Categories(dominant: seq<Option<Rgb>>): (cats: seq<string>)
    ensures |cats| == |dominant|
    ensures forall i :: 0 <= i < |dominant| ==> cats[i] == Categorize(dominant[i])
  {
    if dominant == [] then []
    else Categories(dominant[..|dominant| - 1]) + [Categorize(dominant[|dominant| - 1])]
  }

  /** The target of a file of category `cat` that is the `n`-th of its
      category: `{prefix}_{cat}_img{n}{suffix}` in the category folder, or
      the file's own name made free there. */
  function ColorTarget(existing: set<string>, outDir: string, file: string, cat: string, n: nat, rename: bool,
                       prefix: string): string
  {
    var dir := PathJoin(outDir, cat);
    var name := PathName(file);
    if rename then RenamedTarget(outDir, cat, prefix, n, file)
    else StemFree(existing, dir, name)
  }

  /** `output / cat / f"{prefix}_{cat.lower()}_img{n}{suffix}"`. */
  function RenamedTarget(outDir: string, cat: string, prefix: string, n: nat, file: string): string
  {
    PathJoin(PathJoin(outDir, cat), RenamedName(prefix, cat, n, Suffix(PathName(file))))
  }

  /** How the files are named: from the paths that exist, the file, its
      category and its number in that category. */
  function ColorNamer(outDir: string, rename: bool, prefix: string): (set<string>, string, string, nat) -> string
  {
    (existing: set<string>, file: string, cat: string, n: nat) => ColorTarget(existing, outDir, file, cat, n, rename, prefix)
  }

  /** One more file of the loop extends the run by its transfer. */
  lemma RunStep(existing0: set<string>, files: seq<string>, cats: seq<string>,
                name: (set<string>, string, string, nat) -> string, move: bool, i: nat, st: Sorting, target: string)
    requires |files| == |cats| && i < |files|
    requires st == ColorRun(Sorting([], existing0, 0), files[..i], cats[..i], name, move)
    requires target == name(st.existing, files[i], cats[i], Occurrences(cats[..i], cats[i]) + 1)
    ensures Transfer(st, files[i], target, move) ==
      ColorRun(Sorting([], existing0, 0), files[..i + 1], cats[..i + 1], name, move)
  {
    ColorRunSnoc(Sorting([], existing0, 0), files, cats, name, move, i);
  }

  /** `name` picks the target the sorter computes. */
  ghost predicate Names(name: (set<string>, string, string, nat) -> string, outDir: string, rename: bool,
                        prefix: string)
  {
    forall existing, file, cat, n ::
      name(existing, file, cat, n) == ColorTarget(existing, outDir, file, cat, n, rename, prefix)
  }

  lemma NamerNames(outDir: string, rename: bool, prefix: string)
    ensures Names(ColorNamer(outDir, rename, prefix), outDir, rename, prefix)
  {
  }

  function ColorRun(s: Sorting, files: seq<string>, cats: seq<string>,
                    name: (set<string>, string, string, nat) -> string, move: bool): (r: Sorting)
    requires |files| == |cats|
    ensures |r.ops| == |s.ops| + |files|
  {
    if files == [] then s
    else
      var n := |files| - 1;
      var t := ColorRun(s, files[..n], cats[..n], name, move);
      Transfer(t, files[n], name(t.existing, files[n], cats[n], Occurrences(cats[..n], cats[n]) + 1), move)
  }

  /** One more file is one more transfer. */
  lemma ColorRunSnoc(s: Sorting, files: seq<string>, cats: seq<string>,
                     name: (set<string>, string, string, nat) -> string, move: bool, j: nat)
    requires |files| == |cats| && j < |files|
    ensures var t := ColorRun(s, files[..j], cats[..j], name, move);
      ColorRun(s, files[..j + 1], cats[..j + 1], name, move) ==
      Transfer(t, files[j], name(t.existing, files[j], cats[j], Occurrences(cats[..j], cats[j]) + 1), move)
  {
    assert files[..j + 1][..j] == files[..j];
    assert cats[..j + 1][..j] == cats[..j];
  }

  /** The `j`-th operation moves the `j`-th file to its target at that
      point. */
  lemma {:induction false} ColorRunOps(s: Sorting, files: seq<string>, cats: seq<string>,
                                       name: (set<string>, string, string, nat) -> string, move: bool, j: nat)
    requires |files| == |cats| && j < |files|
    ensures var r := ColorRun(s, files, cats, name, move);
      var t := ColorRun(s, files[..j], cats[..j], name, move);
      r.ops[|s.ops| + j].source == files[j] &&
      r.ops[|s.ops| + j].dest == name(t.existing, files[j], cats[j], Occurrences(cats[..j], cats[j]) + 1)
  {
    var n := |files| - 1;
    if j < n {
      ColorRunOps(s, files[..n], cats[..n], name, move, j);
      ColorRunKeeps(s, files, cats, name, move, |s.ops| + j);
      assert files[..n][..j] == files[..j];
      assert cats[..n][..j] == cats[..j];
    } else {
      ColorRunLast(s, files, cats, name, move);
    }
  }

  lemma ColorRunLast(s: Sorting, files: seq<string>, cats: seq<string>,
                     name: (set<string>, string, string, nat) -> string, move: bool)
    requires |files| == |cats| && files != []
    ensures var n := |files| - 1;
      var r := ColorRun(s, files, cats, name, move);
      var t := ColorRun(s, files[..n], cats[..n], name, move);
      r.ops[|s.ops| + n].source == files[n] &&
      r.ops[|s.ops| + n].dest == name(t.existing, files[n], cats[n], Occurrences(cats[..n], cats[n]) + 1)
  {
    var n := |files| - 1;
    var t := ColorRun(s, files[..n], cats[..n], name, move);
    TransferAppends(t, files[n], name(t.existing, files[n], cats[n], Occurrences(cats[..n], cats[n]) + 1), move);
  }

  lemma ColorRunKeeps(s: Sorting, files: seq<string>, cats: seq<string>,
                      name: (set<string>, string, string, nat) -> string, move: bool, k: nat)
    requires |files| == |cats| && files != [] && k < |s.ops| + |files| - 1
    ensures var n := |files| - 1;
      ColorRun(s, files, cats, name, move).ops[k] == ColorRun(s, files[..n], cats[..n], name, move).ops[k]
  {
    var n := |files| - 1;
    var t := ColorRun(s, files[..n], cats[..n], name, move);
    TransferAppends(t, files[n], name(t.existing, files[n], cats[n], Occurrences(cats[..n], cats[n]) + 1), move);
  }

  /** With renaming, the counters are per category and start at 1: file
      `j` becomes `{prefix}_{category}_img{n}{suffix}` with `n` one more
      than the files of its category before it. */
  lemma RenamedPerCategory(s: Sorting, files: seq<string>, cats: seq<string>, outDir: string, move: bool,
                           prefix: string, j: nat)
    requires |files| == |cats| && j < |files|
    ensures ColorRun(s, files, cats, ColorNamer(outDir, true, prefix), move).ops[|s.ops| + j].dest ==
      RenamedTarget(outDir, cats[j], prefix, Occurrences(cats[..j], cats[j]) + 1, files[j])
  {
    ColorRunOps(s, files, cats, ColorNamer(outDir, true, prefix), move, j);
  }

  /** With a namer that separates numbers, two files of one category never
      get the same target (`NamerSeparates` shows the renaming namer is one). */
  lemma RenamedDistinctInCategory(s: Sorting, files: seq<string>, cats: seq<string>,
                                  name: (set<string>, string, string, nat) -> string, move: bool, i: nat, j: nat)
    requires |files| == |cats| && i < j < |files|
    requires cats[i] == cats[j] != ""
    requires NumbersSeparate(name)
    ensures var r := ColorRun(s, files, cats, name, move);
      r.ops[|s.ops| + i].dest != r.ops[|s.ops| + j].dest
  {
    ColorRunOps(s, files, cats, name, move, i);
    ColorRunOps(s, files, cats, name, move, j);
    OccurrencesGrow(cats, i, j);
  }

  /** Within one category, different numbers give different targets. */
  ghost predicate NumbersSeparate(name: (set<string>, string, string, nat) -> string)
  {
    forall e1, f1, c, n1, e2, f2, n2 :: c != "" && n1 != n2 ==> name(e1, f1, c, n1) != name(e2, f2, c, n2)
  }

  lemma NamerSeparates(outDir: string, prefix: string)
    ensures NumbersSeparate(ColorNamer(outDir, true, prefix))
  {
    var name := ColorNamer(outDir, true, prefix);
    forall e1, f1, c, n1, e2, f2, n2 | c != "" && n1 != n2
      ensures name(e1, f1, c, n1) != name(e2, f2, c, n2)
    {
      TargetsDistinct(outDir, c, prefix, n1, n2, f1, f2);
    }
  }

  /** Different numbers in one category folder give different paths. */
  lemma TargetsDistinct(outDir: string, cat: string, prefix: string, ni: nat, nj: nat, fi: string, fj: string)
    requires ni != nj && cat != ""
    ensures RenamedTarget(outDir, cat, prefix, ni, fi) != RenamedTarget(outDir, cat, prefix, nj, fj)
  {
    var ei, ej := Suffix(PathName(fi)), Suffix(PathName(fj));
    RenamedDistinct(prefix, cat, ni, nj, ei, ej);
    var bi, bj := RenamedName(prefix, cat, ni, ei), RenamedName(prefix, cat, nj, ej);
    RenamedHead(prefix, cat, ni, ei);
    RenamedHead(prefix, cat, nj, ej);
    if PathJoin(PathJoin(outDir, cat), bi) == PathJoin(PathJoin(outDir, cat), bj) {
      PathJoinCancel(PathJoin(outDir, cat), bi, bj);
    }
  }

  /** Without renaming, every file that is sorted lands on a path that did
      not exist before it: nothing is overwritten. */
  lemma NoOverwrite(s: Sorting, files: seq<string>, cats: seq<string>, outDir: string, move: bool, prefix: string,
                    j: nat)
    requires |files| == |cats| && j < |files|
    ensures var before := ColorRun(s, files[..j], cats[..j], ColorNamer(outDir, false, prefix), move).existing;
      ColorRun(s, files, cats, ColorNamer(outDir, false, prefix), move).ops[|s.ops| + j].dest !in before
  {
    ColorRunOps(s, files, cats, ColorNamer(outDir, false, prefix), move, j);
    var before := ColorRun(s, files[..j], cats[..j], ColorNamer(outDir, false, prefix), move).existing;
    StemFreeSpec(before, PathJoin(outDir, cats[j]), PathName(files[j]));
  }

  /** `successful` counts the operations that succeeded. */
  lemma {:induction false} ColorRunSorted(s: Sorting, files: seq<string>, cats: seq<string>,
                                          name: (set<string>, string, string, nat) -> string, move: bool)
    requires |files| == |cats|
    requires s.sorted == CountOk(s.ops)
    ensures var r := ColorRun(s, files, cats, name, move); r.sorted == CountOk(r.ops)
  {
    if files != [] {
      var n := |files| - 1;
      ColorRunSorted(s, files[..n], cats[..n], name, move);
      var t := ColorRun(s, files[..n], cats[..n], name, move);
      TransferCounts(t, files[n], name(t.existing, files[n], cats[n], Occurrences(cats[..n], cats[n]) + 1), move);
    }
  }

  /** The target of one file, as the sorting loop computes it. */
  method TargetOf(existing: set<string>, outDir: string, file: string, cat: string, counter: nat, rename: bool,
                  prefix: string)
    returns (target: string)
    ensures target == ColorTarget(existing, outDir, file, cat, counter, rename, prefix)
  {
    var targetDir := PathJoin(outDir, cat);
    var name := PathName(file);
    if rename {
      target := PathJoin(targetDir, RenamedName(prefix, cat, counter, Suffix(name)));
      assert target == RenamedTarget(outDir, cat, prefix, counter, file);
    } else {
      StemIsInjective(targetDir, name);
      var probes;
      target, probes := FirstFree(existing, PathJoin(targetDir, name), StemCand(targetDir, name));
    }
  }

  /** `sort_by_color` over the files found, given the dominant colour of
      each (`None` where none could be found). Nothing happens when there
      are no files; otherwise the first loop counts the categories, the
      second copies or moves each file, and the result is whether any
      file was sorted. */
  method SortByColor(files: seq<string>, dominant: seq<Option<Rgb>>, outDir: string, move: bool, rename: bool,
                     prefix: string, existing0: set<string>)
    returns (ok: bool, st: Sorting, colorStats: map<string, nat>)
    requires |dominant| == |files|
    ensures colorStats == Tally(Categories(dominant))
    ensures files == [] ==> !ok && st == Sorting([], existing0, 0)
    ensures files != [] ==>
      st == ColorRun(Sorting([], existing0, 0), files, Categories(dominant), ColorNamer(outDir, rename, prefix), move) &&
      (ok <==> st.sorted > 0)
  {
    st := Sorting([], existing0, 0);
    colorStats := map[];
    if files == [] {
      return false, st, colorStats;
    }
    var cats := CountCategories(dominant);
    colorStats := Tally(cats);
    TallySpec(cats);
    NamerNames(outDir, rename, prefix);
    st := SortFiles(files, cats, colorStats.Keys, ColorNamer(outDir, rename, prefix), outDir, move, rename, prefix,
                    existing0);
    ok := st.sorted > 0;
  }

  /** The second loop of `sort_by_color`: each file goes to the folder of
      its category, under its counter's name when renaming; the counters
      start at 1 for every category counted. */
  method SortFiles(files: seq<string>, cats: seq<string>, categories: set<string>,
                   ghost name: (set<string>, string, string, nat) -> string, outDir: string, move: bool,
                   rename: bool, prefix: string, existing0: set<string>)
    returns (st: Sorting)
    requires |files| == |cats|
    requires forall c :: c in cats ==> c in categories
    requires Names(name, outDir, rename, prefix)
    ensures st == ColorRun(Sorting([], existing0, 0), files, cats, name, move)
  {
    st := Sorting([], existing0, 0);
    var counters := StartCounters(categories, cats, rename);
    var i := 0;
    while i < |files|
      invariant 0 <= i <= |files|
      invariant st == ColorRun(Sorting([], existing0, 0), files[..i], cats[..i], name, move)
      invariant rename ==> CountersAt(counters, cats, i)
    {
      st, counters := SortOne(st, files, cats, i, counters, name, outDir, move, rename, prefix, existing0);
      i := i + 1;
    }
    assert files[..i] == files && cats[..i] == cats;
  }

  /** One pass of the sorting loop: file `i` is copied or moved. */
  method SortOne(st: Sorting, files: seq<string>, cats: seq<string>, i: nat, counters: map<string, nat>,
                 ghost name: (set<string>, string, string, nat) -> string, outDir: string, move: bool,
                 rename: bool, prefix: string, ghost existing0: set<string>)
    returns (st': Sorting, counters': map<string, nat>)
    requires |files| == |cats| && i < |files|
    requires rename ==> CountersAt(counters, cats, i)
    requires Names(name, outDir, rename, prefix)
    requires st == ColorRun(Sorting([], existing0, 0), files[..i], cats[..i], name, move)
    ensures st' == ColorRun(Sorting([], existing0, 0), files[..i + 1], cats[..i + 1], name, move)
    ensures rename ==> CountersAt(counters', cats, i + 1)
  {
    var target;
    target, counters' := NextTarget(st.existing, files, cats, i, counters, name, outDir, rename, prefix);
    RunStep(existing0, files, cats, name, move, i, st, target);
    st' := Transfer(st, files[i], target, move);
  }

  /** `rename_counters`: 1 for every category counted, when renaming. */
  method StartCounters(categories: set<string>, cats: seq<string>, rename: bool) returns (counters: map<string, nat>)
    requires forall c :: c in cats ==> c in categories
    ensures rename ==> CountersAt(counters, cats, 0)
  {
    counters := map[];
    if rename {
      counters := map c | c in categories :: 1;
      assert cats[..0] == [];
    }
  }

  /** The target of file `i`, and the counters after it. */
  method NextTarget(existing: set<string>, files: seq<string>, cats: seq<string>, i: nat, counters: map<string, nat>,
                    ghost name: (set<string>, string, string, nat) -> string, outDir: string, rename: bool,
                    prefix: string)
    returns (target: string, counters': map<string, nat>)
    requires |files| == |cats| && i < |files|
    requires rename ==> CountersAt(counters, cats, i)
    requires Names(name, outDir, rename, prefix)
    ensures target == name(existing, files[i], cats[i], Occurrences(cats[..i], cats[i]) + 1)
    ensures rename ==> CountersAt(counters', cats, i + 1)
  {
    counters' := counters;
    if rename {
      CountersStep(counters, cats, i);
      target := TargetOf(existing, outDir, files[i], cats[i], counters[cats[i]], rename, prefix);
      counters' := counters[cats[i] := counters[cats[i]] + 1];
    } else {
      TargetIgnoresNumber(existing, outDir, files[i], cats[i], 0, Occurrences(cats[..i], cats[i]) + 1, prefix);
      target := TargetOf(existing, outDir, files[i], cats[i], 0, rename, prefix);
    }
  }

  /** `rename_counters` after `i` files: each category's counter is one
      more than its files so far. */
  ghost predicate CountersAt(counters: map<string, nat>, cats: seq<string>, i: nat)
    requires i <= |cats|
  {
    forall c :: c in cats ==> c in counters && counters[c] == Occurrences(cats[..i], c) + 1
  }

  /** Bumping the counter of the category of file `i` keeps every counter
      one more than the files of its category so far. */
  lemma CountersStep(counters: map<string, nat>, cats: seq<string>, i: nat)
    requires i < |cats|
    requires CountersAt(counters, cats, i)
    ensures cats[i] in counters && counters[cats[i]] == Occurrences(cats[..i], cats[i]) + 1
    ensures CountersAt(counters[cats[i] := counters[cats[i]] + 1], cats, i + 1)
  {
    assert cats[i] in cats;
    assert cats[..i + 1][..i] == cats[..i];
  }

  /** Without renaming the number plays no part. */
  lemma TargetIgnoresNumber(existing: set<string>, outDir: string, file: string, cat: string, n: nat, m: nat,
                            prefix: string)
    ensures ColorTarget(existing, outDir, file, cat, n, false, prefix) ==
      ColorTarget(existing, outDir, file, cat, m, false, prefix)
  {
  }

  /** The analysis loop: the category of every file, in order. */
  method CountCategories(dominant: seq<Option<Rgb>>) returns (cats: seq<string>)
    ensures cats == Categories(dominant)
  {
    cats := [];
    var i := 0;
    while i < |dominant|
      invariant 0 <= i <= |dominant|
      invariant cats == Categories(dominant[..i])
    {
      var category := CategorizeColor(dominant[i]);
      assert dominant[..i + 1][..i] == dominant[..i];
      cats := cats + [category];
      i := i + 1;
    }
    assert dominant[..i] == dominant;
  }
}
