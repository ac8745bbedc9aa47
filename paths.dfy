/** POSIX path handling as `os.path` and `pathlib` do it: `basename`,
    `splitext`, `join`, `PurePath.name`, `.stem` and `.suffix`. */
module Paths {
  import opened Text

  /** `s.rfind(c)`, as an index when `c` occurs. */
  function LastIndexOf(s: string, c: char): (r: Option<nat>)
    ensures r.None? <==> c !in s
    ensures r.Some? ==> r.value < |s| && s[r.value] == c && c !in s[r.value + 1..]
  {
    if s == [] then None
    else if s[|s| - 1] == c then Some(|s| - 1)
    else
      var r := LastIndexOf(s[..|s| - 1], c);
      assert s == s[..|s| - 1] + [s[|s| - 1]];
      if r.Some? then
        assert s[r.value + 1..] == s[..|s| - 1][r.value + 1..] + [s[|s| - 1]];
        r
      else r
  }

  lemma {:induction false} LastIndexOfAppend(s: string, c: char, t: string)
    requires c !in t
    ensures LastIndexOf(s + [c] + t, c) == Some(|s|)
    decreases |t|
  {
    var u := s + [c] + t;
    if t != [] {
      var t' := t[..|t| - 1];
      assert u[..|u| - 1] == s + [c] + t';
      assert t[|t| - 1] in t;
      LastIndexOfAppend(s, c, t');
    }
  }

  /** `os.path.basename(p)`: the text after the last `/`. */
  function Basename(p: string): (r: string)
    ensures '/' !in r
    ensures EndsWith(p, r)
    ensures '/' !in p ==> r == p
  {
    match LastIndexOf(p, '/')
    case None => p
    case Some(i) => p[i + 1..]
  }

  /** `os.path.splitext(p)`: the extension is the text from the last `.`
      of the last path component, unless only dots precede it there. */
  function SplitExt(p: string): (r: (string, string))
    ensures r.0 + r.1 == p
    ensures r.1 != "" ==> r.1[0] == '.' && '.' !in r.1[1..] && '/' !in r.1
  {
    var start := match LastIndexOf(p, '/') case None => 0 case Some(i) => i + 1;
    match LastIndexOf(p, '.')
    case Some(dot) =>
      if dot >= start && !OnlyDots(p[start..dot]) then
        assert p[dot..][1..] == p[dot + 1..];
        assert p[..dot] + p[dot..] == p;
        (p[..dot], p[dot..])
      else (p, "")
    case None => (p, "")
  }

  /** `os.path.dirname(p)`: the text up to the last `/`, without its
      trailing slashes unless it is only slashes. */
  function Dirname(p: string): (r: string)
    ensures StartsWith(p, r)
    ensures '/' !in p ==> r == ""
  {
    match LastIndexOf(p, '/')
    case None => ""
    case Some(i) =>
      var head := p[..i + 1];
      if forall k :: 0 <= k < |head| ==> head[k] == '/' then head
      else
        var r := TrimRight(head, {'/'});
        assert p[..|r|] == head[..|r|];
        r
  }

  /** Every character is a dot (a leading run of dots is not a stem). */
  predicate OnlyDots(s: string)
  {
    s == [] || (s[0] == '.' && OnlyDots(s[1..]))
  }

  /** `os.path.join(a, b)` for two parts. */
  function PathJoin(a: string, b: string): (r: string)
    ensures b != [] && b[0] == '/' ==> r == b
    ensures (b == [] || b[0] != '/') && a != [] && a[|a| - 1] != '/' ==> r == a + "/" + b
  {
    if b != [] && b[0] == '/' then b
    else if a == [] || a[|a| - 1] == '/' then a + b
    else a + "/" + b
  }

  /** Joining to the same directory keeps names that start alike apart. */
  lemma PathJoinCancel(a: string, b1: string, b2: string)
    requires b1 != [] && b2 != [] && b1[0] == b2[0]
    requires PathJoin(a, b1) == PathJoin(a, b2)
    ensures b1 == b2
  {
    if b1[0] != '/' {
      var pre := if a == [] || a[|a| - 1] == '/' then a else a + "/";
      assert PathJoin(a, b1) == pre + b1 && PathJoin(a, b2) == pre + b2;
      assert b1 == (pre + b1)[|pre|..];
      assert b2 == (pre + b2)[|pre|..];
    }
  }

  /** The components `pathlib` keeps: empty ones and `.` are dropped. */
  function Components(parts: seq<string>): (r: seq<string>)
    ensures forall k :: 0 <= k < |r| ==> r[k] != "" && r[k] != "."
  {
    if parts == [] then []
    else (if parts[0] != "" && parts[0] != "." then [parts[0]] else []) + Components(parts[1..])
  }

  lemma {:induction false} ComponentsAppend(a: seq<string>, b: seq<string>)
    ensures Components(a + b) == Components(a) + Components(b)
  {
    if a != [] {
      assert (a + b)[1..] == a[1..] + b;
      ComponentsAppend(a[1..], b);
    } else {
      assert a + b == b;
    }
  }

  /** Splitting at a separator whose right-hand side has no separator
      adds exactly one piece. */
  lemma {:induction false} SplitAppend(a: string, c: char, b: string)
    requires c !in b
    ensures Split(a + [c] + b, c) == Split(a, c) + [b]
    decreases |a|
  {
    if c !in a {
      SplitFirst(a, c, b);
    } else {
      var i := IndexOf(a, c);
      var head, tail := a[..i], a[i + 1..];
      assert a == head + [c] + tail;
      assert a + [c] + b == head + [c] + (tail + [c] + b);
      SplitFirst(head, c, tail + [c] + b);
      SplitAppend(tail, c, b);
      SplitFirst(head, c, tail);
      var rest := Split(tail, c);
      assert Split(a + [c] + b, c) == [head] + (rest + [b]);
      assert Split(a, c) == [head] + rest;
      assert [head] + (rest + [b]) == ([head] + rest) + [b];
    }
  }

  /** `PurePath(p).name`: the last kept component, or "" when none. */
  function PathName(p: string): (r: string)
    ensures '/' !in r
  {
    var parts := Components(Split(p, '/'));
    if parts == [] then ""
    else
      assert parts[|parts| - 1] in parts;
      assert forall x :: x in Split(p, '/') ==> '/' !in x;
      ComponentsSubset(Split(p, '/'));
      parts[|parts| - 1]
  }

  lemma {:induction false} ComponentsSubset(parts: seq<string>)
    ensures forall x :: x in Components(parts) ==> x in parts
  {
    if parts != [] {
      ComponentsSubset(parts[1..]);
    }
  }

  /** The name is the last component: a directory prefix is dropped. */
  lemma PathNameOfChild(dir: string, name: string)
    requires name != "" && name != "." && '/' !in name
    ensures PathName(dir + "/" + name) == name
  {
    assert dir + "/" + name == dir + ['/'] + name;
    SplitAppend(dir, '/', name);
    assert Split(name, '/') == [name];
    ComponentsAppend(Split(dir, '/'), [name]);
    assert Components([name]) == [name];
  }

  /** `PurePath.suffix`: from the last `.` of the name, when that dot is
      neither the first nor the last character. */
  function Suffix(name: string): (r: string)
    ensures EndsWith(name, r)
    ensures r != "" ==> r[0] == '.' && |r| >= 2
  {
    match LastIndexOf(name, '.')
    case Some(i) => if 0 < i < |name| - 1 then name[i..] else ""
    case None => ""
  }

  /** `PurePath.stem`: the name without its suffix. */
  function Stem(name: string): (r: string)
    ensures r + Suffix(name) == name
  {
    var sfx := Suffix(name);
    assert name == name[..|name| - |sfx|] + name[|name| - |sfx|..];
    name[..|name| - |sfx|]
  }

  /** A name `base.ext` whose extension has no dot has stem `base` and
      suffix `.ext`. */
  lemma StemOfDotted(base: string, ext: string)
    requires base != "" && ext != "" && '.' !in ext
    ensures Suffix(base + "." + ext) == "." + ext
    ensures Stem(base + "." + ext) == base
  {
    assert base + "." + ext == base + ['.'] + ext;
    LastIndexOfAppend(base, '.', ext);
  }
}
