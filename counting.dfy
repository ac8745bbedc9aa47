/** `collections.Counter` over a list of names: how often each name occurs,
    and which names occur more than once. */
module Counting {
  /** How many times `x` occurs in `s`. */
  function Occurrences(s: seq<string>, x: string): nat
  {
    if s == [] then 0 else Occurrences(s[..|s| - 1], x) + if s[|s| - 1] == x then 1 else 0
  }

  /** `Counter(s)`: the number of occurrences of every name in `s`. */
  function Tally(s: seq<string>): map<string, nat>
  {
    if s == [] then map[]
    else
      var m := Tally(s[..|s| - 1]);
      var c := s[|s| - 1];
      m[c := (if c in m then m[c] else 0) + 1]
  }

  /** The names counted are the names in the list, each with the number of
      its occurrences. */
  lemma {:induction false} TallySpec(s: seq<string>)
    ensures forall c :: c in Tally(s) <==> c in s
    ensures forall c :: c in Tally(s) ==> Tally(s)[c] == Occurrences(s, c)
  {
    if s != [] {
      var front := s[..|s| - 1];
      TallySpec(front);
      assert s == front + [s[|s| - 1]];
      var last := s[|s| - 1];
      if last !in Tally(front) {
        OccurrencesAbsent(front, last);
      }
    }
  }

  lemma {:induction false} OccurrencesAbsent(s: seq<string>, x: string)
    requires x !in s
    ensures Occurrences(s, x) == 0
  {
    if s != [] {
      assert s == s[..|s| - 1] + [s[|s| - 1]];
      OccurrencesAbsent(s[..|s| - 1], x);
    }
  }

  /** A later occurrence of a name is counted after an earlier one. */
  lemma {:induction false} OccurrencesGrow(s: seq<string>, i: nat, j: nat)
    requires i < j <= |s|
    ensures Occurrences(s[..j], s[i]) >= Occurrences(s[..i], s[i]) + 1
  {
    if j == i + 1 {
      assert s[..j][..i] == s[..i];
    } else {
      OccurrencesGrow(s, i, j - 1);
      assert s[..j][..j - 1] == s[..j - 1];
    }
  }

  /** A name occurs more than once exactly when two positions hold it. */
  lemma Repeated(s: seq<string>, x: string)
    ensures Occurrences(s, x) > 1 <==> exists i, j :: 0 <= i < j < |s| && s[i] == x && s[j] == x
  {
    if Occurrences(s, x) > 1 {
      var i, j := RepeatedWitness(s, x);
    }
    if exists i, j :: 0 <= i < j < |s| && s[i] == x && s[j] == x {
      var i, j :| 0 <= i < j < |s| && s[i] == x && s[j] == x;
      OccurrencesGrow(s, i, j);
      OccurrencesGrow(s, j, |s|);
      assert s[..|s|] == s;
    }
  }

  lemma {:induction false} RepeatedWitness(s: seq<string>, x: string) returns (i: nat, j: nat)
    requires Occurrences(s, x) > 1
    ensures i < j < |s| && s[i] == x && s[j] == x
  {
    var n := |s| - 1;
    var front := s[..n];
    if s[n] == x {
      if x !in front {
        OccurrencesAbsent(front, x);
      }
      i :| 0 <= i < n && front[i] == x;
      j := n;
    } else {
      i, j := RepeatedWitness(front, x);
    }
  }
}
