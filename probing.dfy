/** The conflict-resolution loop every sorter uses: start from the wanted
    name and, while it is taken, try numbered candidates 1, 2, 3, ... */
module Probing {
  import opened Text
  import opened Paths

  /** Distinct counters give distinct candidate names. */
  ghost predicate Injective(cand: nat -> string)
  {
    forall i: nat, j: nat :: 1 <= i < j ==> cand(i) != cand(j)
  }

  /** The candidates a probe run has tried and found taken. */
  ghost function Tried(cand: nat -> string, n: nat): set<string>
  {
    set j: nat | 1 <= j <= n :: cand(j)
  }

  lemma {:induction false} TriedSize(cand: nat -> string, n: nat)
    requires Injective(cand)
    ensures |Tried(cand, n)| == n
  {
    if n > 0 {
      TriedSize(cand, n - 1);
      assert Tried(cand, n) == Tried(cand, n - 1) + {cand(n)};
      assert cand(n) !in Tried(cand, n - 1);
    } else {
      assert Tried(cand, 0) == {};
    }
  }

  /** Finitely many names are taken, so the loop ends: it can meet at most
      as many taken candidates as there are taken names. */
  lemma TriedBound(taken: set<string>, cand: nat -> string, n: nat)
    requires Injective(cand)
    requires forall j: nat :: 1 <= j <= n ==> cand(j) in taken
    ensures n <= |taken|
  {
    TriedSize(cand, n);
    var t := Tried(cand, n);
    assert t <= taken;
    assert taken == (taken - t) + t;
    assert |taken| == |taken - t| + |t|;
  }

  /** `i` is the first counter whose candidate is free. */
  ghost predicate FirstFreeAt(taken: set<string>, cand: nat -> string, i: nat)
  {
    i >= 1 && cand(i) !in taken && forall j: nat :: 1 <= j < i ==> cand(j) in taken
  }

  /** The first counter from `k` on whose candidate is free, when all
      candidates before `k` are taken. */
  function FreeIndex(taken: set<string>, cand: nat -> string, k: nat): (i: nat)
    requires k >= 1 && Injective(cand)
    requires forall j: nat :: 1 <= j < k ==> cand(j) in taken
    ensures i >= k
    decreases |taken| + 1 - k
  {
    TriedBound(taken, cand, k - 1);
    if cand(k) !in taken then k
    else
      TriedBound(taken, cand, k);
      FreeIndex(taken, cand, k + 1)
  }

  lemma {:induction false} FreeIndexSpec(taken: set<string>, cand: nat -> string, k: nat)
    requires k >= 1 && Injective(cand)
    requires forall j: nat :: 1 <= j < k ==> cand(j) in taken
    ensures FirstFreeAt(taken, cand, FreeIndex(taken, cand, k))
    decreases |taken| + 1 - k
  {
    TriedBound(taken, cand, k - 1);
    if cand(k) in taken {
      TriedBound(taken, cand, k);
      FreeIndexSpec(taken, cand, k + 1);
    }
  }

  /** How many candidates a probe loop tries: none when the wanted name is
      free, else up to the first free one. */
  function Probes(taken: set<string>, wanted: string, cand: nat -> string): nat
    requires Injective(cand)
  {
    if wanted !in taken then 0 else FreeIndex(taken, cand, 1)
  }

  /** The name a probe loop settles on. */
  function FreeName(taken: set<string>, wanted: string, cand: nat -> string): string
    requires Injective(cand)
  {
    if wanted !in taken then wanted else cand(Probes(taken, wanted, cand))
  }

  /** The wanted name when it is free, else the first free candidate; in
      either case a name that is not taken. */
  lemma FreeNameSpec(taken: set<string>, wanted: string, cand: nat -> string)
    requires Injective(cand)
    ensures FreeName(taken, wanted, cand) !in taken
    ensures wanted !in taken ==> Probes(taken, wanted, cand) == 0 && FreeName(taken, wanted, cand) == wanted
    ensures wanted in taken ==>
      FirstFreeAt(taken, cand, Probes(taken, wanted, cand)) && FreeName(taken, wanted, cand) == cand(Probes(taken, wanted, cand))
  {
    if wanted in taken {
      FreeIndexSpec(taken, cand, 1);
    }
  }

  /** `while exists(target): target = candidate(counter); counter += 1`,
      starting from the wanted name; `probes` counts the candidates tried. */
  method FirstFree(taken: set<string>, wanted: string, cand: nat -> string) returns (r: string, probes: nat)
    requires Injective(cand)
    ensures probes == Probes(taken, wanted, cand) && r == FreeName(taken, wanted, cand)
  {
    r := wanted;
    var counter: nat := 1;
    while r in taken
      invariant counter >= 1
      invariant counter == 1 ==> r == wanted
      invariant counter > 1 ==> wanted in taken && r == cand(counter - 1)
      invariant forall j: nat :: 1 <= j < counter - 1 ==> cand(j) in taken
      invariant counter - 2 <= |taken|
      decreases |taken| + 2 - counter
    {
      if counter > 1 {
        TriedBound(taken, cand, counter - 1);
      }
      r := cand(counter);
      counter := counter + 1;
    }
    probes := counter - 1;
    FreeNameSpec(taken, wanted, cand);
  }

  /** Cancelling a common prefix and suffix. */
  lemma Middle(pre: string, a: string, b: string, post: string)
    requires pre + a + post == pre + b + post
    ensures a == b
  {
    var s := pre + a + post;
    assert |a| == |b|;
    assert a == s[|pre|..|pre| + |a|];
    assert b == (pre + b + post)[|pre|..|pre| + |b|];
  }

  /** `f"{base}_{k}{ext}"` names differ for different `k`. */
  lemma NumberedInjective(pre: string, post: string, i: nat, j: nat)
    requires pre + NatToString(i) + post == pre + NatToString(j) + post
    ensures i == j
  {
    Middle(pre, NatToString(i), NatToString(j), post);
    NatToStringInjective(i, j);
  }

  /** `f"{base}_{k:03d}{ext}"` names differ for different `k`. */
  lemma PaddedInjective(pre: string, post: string, i: nat, j: nat)
    requires pre + ZeroPad3(i) + post == pre + ZeroPad3(j) + post
    ensures i == j
  {
    Middle(pre, ZeroPad3(i), ZeroPad3(j), post);
    ZeroPad3Injective(i, j);
  }

  /** `f"{pre}{n}{ext}"` names with different counters differ, whatever
      the extensions, as long as an extension does not start with a digit. */
  lemma SequentialNamesDistinct(pre: string, n: nat, m: nat, e1: string, e2: string)
    requires n != m
    requires e1 == [] || !IsDigit(e1[0])
    requires e2 == [] || !IsDigit(e2[0])
    ensures pre + NatToString(n) + e1 != pre + NatToString(m) + e2
  {
    var d1, d2 := NatToString(n), NatToString(m);
    var t1, t2 := d1 + e1, d2 + e2;
    if pre + d1 + e1 == pre + d2 + e2 {
      assert pre + d1 + e1 == pre + t1 && pre + d2 + e2 == pre + t2;
      assert t1 == (pre + t1)[|pre|..];
      assert t2 == (pre + t2)[|pre|..];
      LeadingDigitsOf(d1, e1);
      LeadingDigitsOf(d2, e2);
      assert d1 == t1[..|d1|];
      assert d2 == t2[..|d2|];
      NatToStringInjective(n, m);
    }
  }

  /** `f"{base}_{counter}{ext}"` for the `splitext` parts of `path`. */
  function Numbered(path: string, k: nat): string
  {
    SplitExt(path).0 + "_" + NatToString(k) + SplitExt(path).1
  }

  function NumberedCand(path: string): nat -> string
  {
    (k: nat) => Numbered(path, k)
  }

  lemma NumberedIsInjective(path: string)
    ensures Injective(NumberedCand(path))
  {
    forall i: nat, j: nat | 1 <= i < j ensures Numbered(path, i) != Numbered(path, j) {
      if Numbered(path, i) == Numbered(path, j) {
        NumberedInjective(SplitExt(path).0 + "_", SplitExt(path).1, i, j);
      }
    }
  }

  /** `_resolve_filename_conflict` may return `r` for `dest`: `dest` itself
      when it is free, else `base_k+ext` for the smallest free `k >= 1`. */
  ghost predicate Resolves(taken: set<string>, dest: string, r: string)
  {
    if dest !in taken then r == dest
    else exists k: nat :: k >= 1 && r == Numbered(dest, k) && r !in taken &&
                          forall j: nat :: 1 <= j < k ==> Numbered(dest, j) in taken
  }

  /** There is only one such name. */
  lemma ResolvesUnique(taken: set<string>, dest: string, r1: string, r2: string)
    requires Resolves(taken, dest, r1) && Resolves(taken, dest, r2)
    ensures r1 == r2
  {
    if dest in taken {
      var k1: nat :| k1 >= 1 && r1 == Numbered(dest, k1) && r1 !in taken &&
        forall j: nat :: 1 <= j < k1 ==> Numbered(dest, j) in taken;
      var k2: nat :| k2 >= 1 && r2 == Numbered(dest, k2) && r2 !in taken &&
        forall j: nat :: 1 <= j < k2 ==> Numbered(dest, j) in taken;
    }
  }

  lemma ResolvesFree(taken: set<string>, dest: string, r: string)
    requires Resolves(taken, dest, r)
    ensures r !in taken
  {
  }

  /** The name `_resolve_filename_conflict` returns. */
  function Resolved(taken: set<string>, dest: string): string
  {
    NumberedIsInjective(dest);
    FreeName(taken, dest, NumberedCand(dest))
  }

  /** It is the wanted name or the first free numbered one, so it is free. */
  lemma ResolvedSpec(taken: set<string>, dest: string)
    ensures Resolves(taken, dest, Resolved(taken, dest))
    ensures Resolved(taken, dest) !in taken
  {
    NumberedIsInjective(dest);
    FreeNameSpec(taken, dest, NumberedCand(dest));
    if dest in taken {
      var k := Probes(taken, dest, NumberedCand(dest));
      assert FirstFreeAt(taken, NumberedCand(dest), k);
      forall j: nat ensures NumberedCand(dest)(j) == Numbered(dest, j) {
      }
      assert k >= 1 && Resolved(taken, dest) == Numbered(dest, k);
    }
  }

  /** `_resolve_filename_conflict`: `dest` when it does not exist, else
      `base_1ext`, `base_2ext`, ... until one does not exist. */
  method ResolveNumbered(dest: string, taken: set<string>) returns (r: string)
    ensures r == Resolved(taken, dest)
  {
    NumberedIsInjective(dest);
    var probes;
    r, probes := FirstFree(taken, dest, NumberedCand(dest));
  }

  /** `f"{name}_{counter:03d}{ext}"` for the `splitext` parts of `path`. */
  function Padded(path: string, k: nat): string
  {
    SplitExt(path).0 + "_" + ZeroPad3(k) + SplitExt(path).1
  }

  function PaddedCand(path: string): nat -> string
  {
    (k: nat) => Padded(path, k)
  }

  lemma PaddedIsInjective(path: string)
    ensures Injective(PaddedCand(path))
  {
    forall i: nat, j: nat | 1 <= i < j ensures Padded(path, i) != Padded(path, j) {
      if Padded(path, i) == Padded(path, j) {
        PaddedInjective(SplitExt(path).0 + "_", SplitExt(path).1, i, j);
      }
    }
  }

  /** `dir / f"{stem}_{counter}{suffix}"` for the `pathlib` stem and suffix
      of the file name `name`. */
  function StemNumbered(dir: string, name: string, k: nat): string
  {
    PathJoin(dir, Stem(name) + "_" + NatToString(k) + Suffix(name))
  }

  function StemCand(dir: string, name: string): nat -> string
  {
    (k: nat) => StemNumbered(dir, name, k)
  }

  lemma StemIsInjective(dir: string, name: string)
    ensures Injective(StemCand(dir, name))
  {
    forall i: nat, j: nat | 1 <= i < j ensures StemNumbered(dir, name, i) != StemNumbered(dir, name, j) {
      var pre, post := Stem(name) + "_", Suffix(name);
      var bi, bj := pre + NatToString(i) + post, pre + NatToString(j) + post;
      assert bi[0] == bj[0] by {
        assert bi[..|pre|] == pre && bj[..|pre|] == pre;
      }
      if StemNumbered(dir, name, i) == StemNumbered(dir, name, j) {
        PathJoinCancel(dir, bi, bj);
        NumberedInjective(pre, post, i, j);
      }
    }
  }

  /** `f"{prefix}_{folder.lower()}_img{counter}{ext}"`, without the prefix
      part when the prefix is empty. */
  function RenamedName(prefix: string, folder: string, counter: nat, ext: string): string
  {
    (if prefix != "" then prefix + "_" else "") + Lower(folder) + "_img" + NatToString(counter) + ext
  }

  /** Two files of one folder with different counters never get the same
      name, whatever their extensions. */
  lemma RenamedDistinct(prefix: string, folder: string, i: nat, j: nat, e1: string, e2: string)
    requires i != j
    requires e1 == "" || e1[0] == '.'
    requires e2 == "" || e2[0] == '.'
    ensures RenamedName(prefix, folder, i, e1) != RenamedName(prefix, folder, j, e2)
  {
    var pre := (if prefix != "" then prefix + "_" else "") + Lower(folder) + "_img";
    assert RenamedName(prefix, folder, i, e1) == pre + NatToString(i) + e1;
    assert RenamedName(prefix, folder, j, e2) == pre + NatToString(j) + e2;
    SequentialNamesDistinct(pre, i, j, e1, e2);
  }

  /** `dir / name`, or while that exists `dir / f"{stem}_{counter}{suffix}"`
      for the next counter from 1. */
  function StemFree(taken: set<string>, dir: string, name: string): string
  {
    StemIsInjective(dir, name);
    FreeName(taken, PathJoin(dir, name), StemCand(dir, name))
  }

  /** The name itself when free, else the first free `stem_k` name; never
      a taken path. */
  lemma StemFreeSpec(taken: set<string>, dir: string, name: string)
    ensures StemFree(taken, dir, name) !in taken
    ensures PathJoin(dir, name) !in taken ==> StemFree(taken, dir, name) == PathJoin(dir, name)
    ensures PathJoin(dir, name) in taken ==> exists k: nat ::
      k >= 1 && StemFree(taken, dir, name) == StemNumbered(dir, name, k) &&
      forall j: nat :: 1 <= j < k ==> StemNumbered(dir, name, j) in taken
  {
    StemIsInjective(dir, name);
    FreeNameSpec(taken, PathJoin(dir, name), StemCand(dir, name));
    if PathJoin(dir, name) in taken {
      var k := Probes(taken, PathJoin(dir, name), StemCand(dir, name));
      assert FirstFreeAt(taken, StemCand(dir, name), k);
      forall j: nat ensures StemCand(dir, name)(j) == StemNumbered(dir, name, j) {
      }
      assert k >= 1 && StemFree(taken, dir, name) == StemNumbered(dir, name, k);
    }
  }

  /** A renamed name starts with the prefix, or with the folder when there
      is no prefix: its first character does not depend on the counter. */
  lemma RenamedHead(prefix: string, folder: string, counter: nat, ext: string)
    requires prefix != "" || folder != ""
    ensures RenamedName(prefix, folder, counter, ext) != []
    ensures RenamedName(prefix, folder, counter, ext)[0] == (prefix + Lower(folder))[0]
  {
    var r := RenamedName(prefix, folder, counter, ext);
    var rest := Lower(folder) + "_img" + NatToString(counter) + ext;
    if prefix != "" {
      assert r == prefix + ("_" + rest);
    } else {
      assert r == rest;
    }
  }
}
