/** Python's ordering of `str` values (code point by code point, a proper
    prefix first) and `sorted(set(names))`. */
module StrOrder {

  predicate Less(a: string, b: string)
  {
    if a == [] then b != []
    else if b == [] then false
    else if a[0] == b[0] then Less(a[1..], b[1..])
    else a[0] < b[0]
  }

  lemma {:induction false} LessIrreflexive(a: string)
    ensures !Less(a, a)
  {
    if a != [] { LessIrreflexive(a[1..]); }
  }

  lemma {:induction false} LessAsymmetric(a: string, b: string)
    requires Less(a, b)
    ensures !Less(b, a)
  {
    if a != [] && b != [] && a[0] == b[0] { LessAsymmetric(a[1..], b[1..]); }
  }

  lemma {:induction false} LessTransitive(a: string, b: string, c: string)
    requires Less(a, b) && Less(b, c)
    ensures Less(a, c)
  {
    if a != [] && b != [] && c != [] && a[0] == b[0] && b[0] == c[0] {
      LessTransitive(a[1..], b[1..], c[1..]);
    }
  }

  lemma {:induction false} LessTotal(a: string, b: string)
    requires a != b
    ensures Less(a, b) || Less(b, a)
  {
    if a != [] && b != [] && a[0] == b[0] {
      assert a == [a[0]] + a[1..] && b == [b[0]] + b[1..];
      LessTotal(a[1..], b[1..]);
    }
  }

  /** Strictly increasing, hence free of duplicates. */
  predicate StrictlySorted(s: seq<string>)
  {
    forall i, j :: 0 <= i < j < |s| ==> Less(s[i], s[j])
  }

  function Elements(s: seq<string>): set<string>
  {
    set i | 0 <= i < |s| :: s[i]
  }

  lemma ElementsCons(x: string, s: seq<string>)
    ensures Elements([x] + s) == {x} + Elements(s)
  {
    var r := [x] + s;
    assert r[0] == x;
    forall y | y in Elements(r) ensures y in {x} + Elements(s) {
      var k :| 0 <= k < |r| && r[k] == y;
      if k > 0 { assert s[k - 1] == y; }
    }
    forall y | y in Elements(s) ensures y in Elements(r) {
      var k :| 0 <= k < |s| && s[k] == y;
      assert r[k + 1] == y;
    }
  }

  /** Insert `x` into a strictly sorted list, dropping it when present. */
  function Insert(x: string, s: seq<string>): (r: seq<string>)
    requires StrictlySorted(s)
    ensures StrictlySorted(r)
    ensures Elements(r) == Elements(s) + {x}
  {
    if s == [] then
      assert [x][0] == x;
      [x]
    else if x == s[0] then s
    else if Less(x, s[0]) then
      forall j | 0 < j < |s| ensures Less(x, s[j]) { LessTransitive(x, s[0], s[j]); }
      ElementsCons(x, s);
      [x] + s
    else
      LessTotal(x, s[0]);
      var tail := Insert(x, s[1..]);
      assert s == [s[0]] + s[1..];
      ElementsCons(s[0], s[1..]);
      var r := [s[0]] + tail;
      forall i, j | 0 <= i < j < |r| ensures Less(r[i], r[j]) {
        if i == 0 {
          assert r[j] in Elements(tail);
          assert r[j] == x || r[j] in Elements(s[1..]);
        }
      }
      ElementsCons(s[0], tail);
      r
  }

  /** `sorted(set(names))`: the distinct names in increasing order. */
  function SortedDistinct(names: seq<string>): (r: seq<string>)
    ensures StrictlySorted(r)
    ensures Elements(r) == Elements(names)
  {
    if names == [] then []
    else
      var rest := SortedDistinct(names[..|names| - 1]);
      assert Elements(names) == Elements(names[..|names| - 1]) + {names[|names| - 1]} by {
        forall y | y in Elements(names) ensures y in Elements(names[..|names| - 1]) + {names[|names| - 1]} {
          var i :| 0 <= i < |names| && names[i] == y;
          if i < |names| - 1 { assert names[..|names| - 1][i] == y; }
        }
      }
      Insert(names[|names| - 1], rest)
  }

  /** A strictly sorted list is determined by its set of elements. */
  lemma {:induction false} SortedUnique(a: seq<string>, b: seq<string>)
    requires StrictlySorted(a) && StrictlySorted(b)
    requires Elements(a) == Elements(b)
    ensures a == b
    decreases |a|
  {
    if a == [] {
      assert forall k :: 0 <= k < |b| ==> b[k] in Elements(b);
    } else {
      assert a[0] in Elements(a);
      assert b != [];
      assert b[0] in Elements(b);
      var j :| 0 <= j < |b| && b[j] == a[0];
      var i :| 0 <= i < |a| && a[i] == b[0];
      if j > 0 {
        assert Less(b[0], b[j]);
        if i > 0 {
          assert Less(a[0], a[i]);
          LessAsymmetric(a[0], b[0]);
        }
        LessIrreflexive(a[0]);
      }
      assert a[0] == b[0];
      assert Elements(a[1..]) == Elements(a) - {a[0]} by {
        forall k | 0 < k < |a| ensures a[k] != a[0] { LessIrreflexive(a[0]); }
        forall y | y in Elements(a) - {a[0]} ensures y in Elements(a[1..]) {
          var k :| 0 <= k < |a| && a[k] == y;
          assert a[1..][k - 1] == y;
        }
      }
      assert Elements(b[1..]) == Elements(b) - {b[0]} by {
        forall k | 0 < k < |b| ensures b[k] != b[0] { LessIrreflexive(b[0]); }
        forall y | y in Elements(b) - {b[0]} ensures y in Elements(b[1..]) {
          var k :| 0 <= k < |b| && b[k] == y;
          assert b[1..][k - 1] == y;
        }
      }
      SortedUnique(a[1..], b[1..]);
    }
  }

  /** Two name lists with the same names sort to the same list, whatever
      their order and however often each name repeats. */
  lemma SortedDistinctDependsOnlyOnElements(xs: seq<string>, ys: seq<string>)
    requires Elements(xs) == Elements(ys)
    ensures SortedDistinct(xs) == SortedDistinct(ys)
  {
    SortedUnique(SortedDistinct(xs), SortedDistinct(ys));
  }
}
