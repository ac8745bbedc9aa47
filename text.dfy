/** Python string operations the core relies on, restricted to ASCII:
    `str.lower`, `str.strip`, `str.split`, `str.join`, `str.replace`,
    the `in` substring test, slicing `s[:n]`, `str(int)` and `{n:03d}`. */
module Text {

  datatype Option<T> = None | Some(value: T)

  /** Characters that `str.isspace` and the regular-expression class `\s`
      accept among the first 128 code points. */
  const Whitespace: set<char> :=
    {' ', '\t', '\n', '\r', 11 as char, 12 as char, 28 as char, 29 as char, 30 as char, 31 as char}

  predicate IsSpace(c: char) { c in Whitespace }

  predicate IsDigit(c: char) { '0' <= c <= '9' }

  function LowerChar(c: char): (d: char)
    ensures 'A' <= c <= 'Z' ==> 'a' <= d <= 'z'
    ensures !('A' <= c <= 'Z') ==> d == c
  {
    if 'A' <= c <= 'Z' then (c as int + 32) as char else c
  }

  /** `s.lower()` on ASCII text. */
  function Lower(s: string): (r: string)
    ensures |r| == |s|
    ensures forall i :: 0 <= i < |s| ==> r[i] == LowerChar(s[i])
  {
    seq(|s|, i requires 0 <= i < |s| => LowerChar(s[i]))
  }

  lemma LowerConcat(a: string, b: string)
    ensures Lower(a + b) == Lower(a) + Lower(b)
  {
  }

  predicate StartsWith(s: string, p: string) { |p| <= |s| && s[..|p|] == p }

  predicate EndsWith(s: string, p: string) { |p| <= |s| && s[|s| - |p|..] == p }

  predicate OccursAt(s: string, sub: string, i: int) { 0 <= i && i + |sub| <= |s| && s[i..i + |sub|] == sub }

  /** Python's `sub in s`. */
  predicate Contains(s: string, sub: string) { exists i | 0 <= i <= |s| :: OccursAt(s, sub, i) }

  lemma ContainsInConcat(a: string, b: string, sub: string)
    requires Contains(a, sub) || Contains(b, sub)
    ensures Contains(a + b, sub)
  {
    if Contains(a, sub) {
      var i :| 0 <= i <= |a| && OccursAt(a, sub, i);
      assert (a + b)[i..i + |sub|] == a[i..i + |sub|];
      assert OccursAt(a + b, sub, i);
    } else {
      var i :| 0 <= i <= |b| && OccursAt(b, sub, i);
      assert (a + b)[|a| + i..|a| + i + |sub|] == b[i..i + |sub|];
      assert OccursAt(a + b, sub, |a| + i);
    }
  }

  /** Python's `s[:n]`. */
  function Take(s: string, n: nat): (r: string)
    ensures |r| <= n && |r| <= |s|
    ensures |s| <= n ==> r == s
    ensures r == s[..|r|]
  {
    if |s| <= n then s else s[..n]
  }

  function TrimLeft(s: string, drop: set<char>): (r: string)
    ensures |r| <= |s| && r == s[|s| - |r|..]
    ensures r != [] ==> r[0] !in drop
    ensures forall i :: 0 <= i < |s| - |r| ==> s[i] in drop
  {
    if s != [] && s[0] in drop then TrimLeft(s[1..], drop) else s
  }

  function TrimRight(s: string, drop: set<char>): (r: string)
    ensures |r| <= |s| && r == s[..|r|]
    ensures r != [] ==> r[|r| - 1] !in drop
    ensures forall i :: |r| <= i < |s| ==> s[i] in drop
  {
    if s != [] && s[|s| - 1] in drop then TrimRight(s[..|s| - 1], drop) else s
  }

  /** Trimming only drops characters. */
  lemma {:induction false} TrimLeftSub(s: string, drop: set<char>)
    ensures forall x :: x in TrimLeft(s, drop) ==> x in s
  {
    var r := TrimLeft(s, drop);
    var k := |s| - |r|;
    assert r == s[k..];
    forall x | x in r ensures x in s {
      var i :| 0 <= i < |r| && r[i] == x;
      assert s[k..][i] == s[k + i];
    }
  }

  lemma {:induction false} TrimRightSub(s: string, drop: set<char>)
    ensures forall x :: x in TrimRight(s, drop) ==> x in s
  {
    var r := TrimRight(s, drop);
    forall x | x in r ensures x in s {
      var i :| 0 <= i < |r| && r[i] == x;
      assert s[i] == x;
    }
  }

  /** Python's `s.strip(chars)`: drop a run of `chars` at each end. */
  function Trim(s: string, drop: set<char>): (r: string)
    ensures r != [] ==> r[0] !in drop && r[|r| - 1] !in drop
    ensures |r| <= |s|
    ensures (forall i :: 0 <= i < |s| ==> s[i] !in drop) ==> r == s
  {
    TrimRight(TrimLeft(s, drop), drop)
  }

  /** Python's `s.strip()`. */
  function Strip(s: string): (r: string)
    ensures r != [] ==> !IsSpace(r[0]) && !IsSpace(r[|r| - 1])
    ensures |r| <= |s|
  {
    Trim(s, Whitespace)
  }

  /** Python's `sep.join(parts)`. */
  function Join(sep: string, parts: seq<string>): (r: string)
    ensures parts == [] ==> r == ""
    ensures |parts| == 1 ==> r == parts[0]
  {
    if parts == [] then ""
    else if |parts| == 1 then parts[0]
    else parts[0] + sep + Join(sep, parts[1..])
  }

  function IndexOf(s: string, c: char): (i: nat)
    requires c in s
    ensures i < |s| && s[i] == c && c !in s[..i]
  {
    if s[0] == c then 0 else 1 + IndexOf(s[1..], c)
  }

  /** The first occurrence of `c` is the one with no `c` before it. */
  lemma {:induction false} FirstIndexOf(s: string, c: char, j: nat)
    requires j < |s| && s[j] == c && c !in s[..j]
    ensures IndexOf(s, c) == j
    decreases j
  {
    if j > 0 {
      assert s[..j][0] == s[0];
      assert s[1..][..j - 1] == s[..j][1..];
      FirstIndexOf(s[1..], c, j - 1);
    }
  }

  /** Python's `s.split(c)` with an explicit one-character separator. */
  function Split(s: string, c: char): (pieces: seq<string>)
    ensures |pieces| >= 1
    ensures forall k :: 0 <= k < |pieces| ==> c !in pieces[k]
    decreases |s|
  {
    if c !in s then [s]
    else
      var i := IndexOf(s, c);
      [s[..i]] + Split(s[i + 1..], c)
  }

  /** Splitting and joining with the same separator gives the text back. */
  lemma {:induction false} JoinSplit(s: string, c: char)
    ensures Join([c], Split(s, c)) == s
    decreases |s|
  {
    if c in s {
      var i := IndexOf(s, c);
      var head, tail := s[..i], s[i + 1..];
      var rest := Split(tail, c);
      var parts := Split(s, c);
      assert parts == [head] + rest;
      assert parts[0] == head && parts[1..] == rest && |parts| >= 2;
      JoinSplit(tail, c);
      calc {
        Join([c], parts);
        parts[0] + [c] + Join([c], parts[1..]);
        head + [c] + tail;
        { assert s == s[..i] + [c] + s[i + 1..]; }
        s;
      }
    }
  }

  function Last(pieces: seq<string>): string
    requires |pieces| >= 1
  {
    pieces[|pieces| - 1]
  }

  /** The last piece of `s.split(c)` is the text after the last `c`. */
  lemma {:induction false} SplitLastSuffix(s: string, c: char)
    ensures EndsWith(s, Last(Split(s, c)))
    decreases |s|
  {
    if c in s {
      var i := IndexOf(s, c);
      var tail := s[i + 1..];
      var rest := Split(tail, c);
      SplitLastSuffix(tail, c);
      assert Split(s, c) == [s[..i]] + rest;
      var last := Last(rest);
      assert Last(Split(s, c)) == last;
      assert |last| <= |tail| && tail[|tail| - |last|..] == last;
      assert s[|s| - |last|..] == tail[|tail| - |last|..];
    }
  }

  /** A join of two or more parts ends with the separator and the last part. */
  lemma {:induction false} JoinEndsWithLast(sep: string, parts: seq<string>)
    requires |parts| >= 2
    ensures EndsWith(Join(sep, parts), sep + Last(parts))
    decreases |parts|
  {
    var tail := parts[1..];
    var suffix := sep + Last(parts);
    if |parts| == 2 {
      assert Join(sep, parts) == parts[0] + suffix;
    } else {
      assert Last(tail) == Last(parts);
      JoinEndsWithLast(sep, tail);
      var j := Join(sep, tail);
      assert Join(sep, parts) == (parts[0] + sep) + j;
      assert Join(sep, parts)[|Join(sep, parts)| - |suffix|..] == j[|j| - |suffix|..];
    }
  }

  /** The last piece of `s.split(c)` is preceded by `c` unless it is all of `s`. */
  lemma SplitLastAfterSeparator(s: string, c: char)
    ensures var last := Last(Split(s, c)); |last| < |s| ==> s[|s| - |last| - 1] == c
  {
    var parts := Split(s, c);
    JoinSplit(s, c);
    if |parts| >= 2 {
      JoinEndsWithLast([c], parts);
      var suffix := [c] + Last(parts);
      assert s[|s| - |suffix|..][0] == s[|s| - |Last(parts)| - 1];
    }
  }

  lemma NotInNatToString(n: nat, c: char)
    requires !IsDigit(c)
    ensures c !in NatToString(n)
  {
    var d := NatToString(n);
    forall i | 0 <= i < |d| ensures d[i] != c { assert IsDigit(d[i]); }
  }

  /** Every piece of `s.split(c)` is made of characters of `s`. */
  lemma {:induction false} SplitPieceChars(s: string, c: char, k: nat, x: char)
    requires k < |Split(s, c)| && x in Split(s, c)[k]
    ensures x in s
    decreases |s|
  {
    if c in s {
      var i := IndexOf(s, c);
      if k > 0 {
        SplitPieceChars(s[i + 1..], c, k - 1, x);
      }
    }
  }

  /** Splitting `a + [c] + b` where `a` has no `c`: the first piece is `a`. */
  lemma SplitFirst(a: string, c: char, b: string)
    requires c !in a
    ensures Split(a + [c] + b, c) == [a] + Split(b, c)
  {
    var s := a + [c] + b;
    assert s[|a|] == c;
    assert s[..|a|] == a;
    var i := IndexOf(s, c);
    assert i == |a|;
    assert s[..i] == a && s[i + 1..] == b;
  }

  /** Python's `s.replace(old, new)`: leftmost, non-overlapping occurrences. */
  function Replace(s: string, pat: string, rep: string): (r: string)
    requires pat != ""
    ensures !Contains(s, pat) ==> r == s
    decreases |s|
  {
    if |s| < |pat| then
      assert forall i :: !OccursAt(s, pat, i);
      s
    else if s[..|pat|] == pat then
      assert OccursAt(s, pat, 0);
      rep + Replace(s[|pat|..], pat, rep)
    else
      NotContainsTail(s, pat);
      [s[0]] + Replace(s[1..], pat, rep)
  }

  /** A text lacking one of the characters of `sub` does not contain `sub`. */
  lemma NotContainsMissingChar(s: string, sub: string, c: char)
    requires c in sub && c !in s
    ensures !Contains(s, sub)
  {
    var k :| 0 <= k < |sub| && sub[k] == c;
    forall i | 0 <= i <= |s| ensures !OccursAt(s, sub, i) {
      if i + |sub| <= |s| {
        assert s[i..i + |sub|][k] == s[i + k] != c;
      }
    }
  }

  lemma NotContainsTail(s: string, sub: string)
    requires s != []
    ensures !Contains(s, sub) ==> !Contains(s[1..], sub)
  {
    if Contains(s[1..], sub) {
      var i :| 0 <= i <= |s[1..]| && OccursAt(s[1..], sub, i);
      assert s[i + 1..i + 1 + |sub|] == s[1..][i..i + |sub|];
      assert OccursAt(s, sub, i + 1);
    }
  }

  /** Deleting an occurrence that cannot overlap anything: `s.replace(old, "")`
      leaves no occurrence of a one-character `old`. */
  lemma {:induction false} ReplaceCharRemoves(s: string, c: char)
    ensures c !in Replace(s, [c], "")
    ensures |Replace(s, [c], "")| <= |s|
    decreases |s|
  {
    if |s| >= 1 {
      ReplaceCharRemoves(s[1..], c);
    }
  }

  /** `re.sub('[...]', ch, s)`: every character of `bad` becomes `ch`. */
  function MapChars(s: string, bad: set<char>, ch: char): (r: string)
    ensures |r| == |s|
    ensures forall i :: 0 <= i < |s| ==> r[i] == if s[i] in bad then ch else s[i]
  {
    if s == [] then [] else [if s[0] in bad then ch else s[0]] + MapChars(s[1..], bad, ch)
  }

  lemma MapCharsAvoids(s: string, bad: set<char>, ch: char)
    requires ch !in bad
    ensures forall i :: 0 <= i < |MapChars(s, bad, ch)| ==> MapChars(s, bad, ch)[i] !in bad
  {
  }

  function DigitChar(d: nat): (c: char)
    requires d < 10
    ensures IsDigit(c)
  {
    ('0' as int + d) as char
  }

  /** Python's `str(n)` for a natural number. */
  function NatToString(n: nat): (r: string)
    ensures |r| >= 1
    ensures forall i :: 0 <= i < |r| ==> IsDigit(r[i])
    ensures |r| == 1 <==> n < 10
  {
    if n < 10 then [DigitChar(n)] else NatToString(n / 10) + [DigitChar(n % 10)]
  }

  /** Distinct numbers render as distinct decimal strings. */
  lemma {:induction false} NatToStringInjective(m: nat, n: nat)
    requires NatToString(m) == NatToString(n)
    ensures m == n
  {
    if m >= 10 && n >= 10 {
      var sm, sn := NatToString(m), NatToString(n);
      assert sm[..|sm| - 1] == NatToString(m / 10);
      assert sn[..|sn| - 1] == NatToString(n / 10);
      NatToStringInjective(m / 10, n / 10);
      assert DigitChar(m % 10) == sm[|sm| - 1] == sn[|sn| - 1] == DigitChar(n % 10);
    }
  }

  /** The value of a run of decimal digits (underscores are skipped). */
  function DigitsValue(s: string): nat
  {
    if s == [] then 0
    else if s[|s| - 1] == '_' then DigitsValue(s[..|s| - 1])
    else DigitsValue(s[..|s| - 1]) * 10 + (if IsDigit(s[|s| - 1]) then s[|s| - 1] as int - '0' as int else 0)
  }

  /** What `int()` accepts after the sign: digits, with single underscores
      only between two digits. */
  predicate IsDigitRun(s: string)
  {
    s != [] && IsDigit(s[0]) && IsDigit(s[|s| - 1])
    && (forall i :: 0 <= i < |s| ==> IsDigit(s[i]) || s[i] == '_')
    && (forall i :: 0 <= i < |s| - 1 ==> !(s[i] == '_' && s[i + 1] == '_'))
  }

  /** Python's `int(s)` on ASCII text; `None` where it raises `ValueError`. */
  function ParseInt(s: string): (r: Option<int>)
    ensures r.Some? ==> var t := Strip(s); t != [] && (IsDigit(t[0]) || t[0] == '+' || t[0] == '-')
  {
    var t := Strip(s);
    if t != [] && (t[0] == '+' || t[0] == '-') then
      var v: int := DigitsValue(t[1..]);
      if IsDigitRun(t[1..]) then Some(if t[0] == '-' then -v else v) else None
    else if IsDigitRun(t) then Some(DigitsValue(t))
    else None
  }

  lemma {:induction false} DigitsValueOfNat(n: nat)
    ensures DigitsValue(NatToString(n)) == n
  {
    var d := NatToString(n);
    if n >= 10 {
      DigitsValueOfNat(n / 10);
      assert d[..|d| - 1] == NatToString(n / 10);
    }
  }

  /** Text without whitespace is its own `strip()`. */
  lemma StripNoSpace(d: string)
    requires forall i :: 0 <= i < |d| ==> IsDigit(d[i])
    ensures Strip(d) == d
  {
    forall i | 0 <= i < |d| ensures d[i] !in Whitespace { assert IsDigit(d[i]); }
  }

  lemma DigitRunOfNat(n: nat)
    ensures IsDigitRun(NatToString(n))
  {
    var d := NatToString(n);
    assert IsDigit(d[0]) && IsDigit(d[|d| - 1]);
    forall i | 0 <= i < |d| - 1 ensures d[i] != '_' { assert IsDigit(d[i]); }
  }

  /** `int(str(n)) == n`. */
  lemma ParseIntOfNat(n: nat)
    ensures ParseInt(NatToString(n)) == Some(n)
  {
    var d := NatToString(n);
    StripNoSpace(d);
    DigitsValueOfNat(n);
    DigitRunOfNat(n);
    assert IsDigit(d[0]);
  }

  /** Python's `str(i)` for any integer. */
  function IntToString(i: int): (r: string)
    ensures |r| >= 1
  {
    if i < 0 then "-" + NatToString(-i) else NatToString(i)
  }

  /** The length of the run of digits `t` starts with. */
  function LeadingDigits(t: string): (r: nat)
    ensures r <= |t|
  {
    if t != [] && IsDigit(t[0]) then 1 + LeadingDigits(t[1..]) else 0
  }

  /** A digit run followed by text that does not start with a digit. */
  lemma {:induction false} LeadingDigitsOf(d: string, e: string)
    requires forall i :: 0 <= i < |d| ==> IsDigit(d[i])
    requires e == [] || !IsDigit(e[0])
    ensures LeadingDigits(d + e) == |d|
  {
    if d != [] {
      assert (d + e)[1..] == d[1..] + e;
      LeadingDigitsOf(d[1..], e);
    } else {
      assert d + e == e;
    }
  }

  /** Python's `f"{n:03d}"`: at least three digits, padded with zeros. */
  function ZeroPad3(n: nat): (r: string)
    ensures |r| >= 3
    ensures forall i :: 0 <= i < |r| ==> IsDigit(r[i])
  {
    var d := NatToString(n);
    if |d| >= 3 then d else seq(3 - |d|, _ => '0') + d
  }

  lemma {:induction false} ZeroPad3Injective(m: nat, n: nat)
    requires ZeroPad3(m) == ZeroPad3(n)
    ensures m == n
  {
    var dm, dn := NatToString(m), NatToString(n);
    // The padding is only zeros, and an unpadded rendering of more than one digit never starts with '0'.
    NoLeadingZero(m);
    NoLeadingZero(n);
    var pm, pn := ZeroPad3(m), ZeroPad3(n);
    if |dm| == |dn| {
      assert dm == pm[|pm| - |dm|..] && dn == pn[|pn| - |dn|..];
      NatToStringInjective(m, n);
    } else {
      PadShape(m);
      PadShape(n);
    }
  }

  lemma PadShape(n: nat)
    ensures |ZeroPad3(n)| == if |NatToString(n)| >= 3 then |NatToString(n)| else 3
    ensures ZeroPad3(n)[|ZeroPad3(n)| - |NatToString(n)|..] == NatToString(n)
    ensures forall i :: 0 <= i < |ZeroPad3(n)| - |NatToString(n)| ==> ZeroPad3(n)[i] == '0'
  {
  }

  lemma {:induction false} NoLeadingZero(n: nat)
    ensures |NatToString(n)| > 1 ==> NatToString(n)[0] != '0'
  {
    if n >= 10 {
      NoLeadingZero(n / 10);
      assert NatToString(n)[0] == NatToString(n / 10)[0];
      if n / 10 < 10 {
        assert n / 10 != 0;
      }
    }
  }
}
