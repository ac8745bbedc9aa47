/** Copying and moving files, over the set of paths that exist: the log
    of operations and the count of those that succeeded. */
module FileOps {
  /** One copy or move: `ok` is false when the file operation raised. */
  datatype Op = Op(source: string, dest: string, ok: bool)

  /** The operations so far, the paths that exist and the files sorted. */
  datatype Sorting = Sorting(ops: seq<Op>, existing: set<string>, sorted: nat)

  /** `shutil.move` or `shutil.copy2`: both raise when the source does not
      exist, and `copy2` also when it would copy a file onto itself. */
  function Transfer(s: Sorting, source: string, dest: string, move: bool): Sorting
  {
    var ok := source in s.existing && (move || source != dest);
    var existing :=
      if !ok then s.existing
      else if move then s.existing - {source} + {dest}
      else s.existing + {dest};
    Sorting(s.ops + [Op(source, dest, ok)], existing, if ok then s.sorted + 1 else s.sorted)
  }

  /** A transfer appends its own operation and keeps the earlier ones. */
  lemma TransferAppends(s: Sorting, source: string, dest: string, move: bool)
    ensures var r := Transfer(s, source, dest, move);
      |r.ops| == |s.ops| + 1 && r.ops[|s.ops|].source == source && r.ops[|s.ops|].dest == dest &&
      forall k :: 0 <= k < |s.ops| ==> r.ops[k] == s.ops[k]
  {
  }

  /** After a transfer the destination exists, a move leaves no source
      behind, and a failed transfer changes nothing but the log. */
  lemma TransferSpec(s: Sorting, source: string, dest: string, move: bool)
    ensures var r := Transfer(s, source, dest, move);
      var ok := r.ops[|s.ops|].ok;
      r.ops[..|s.ops|] == s.ops && |r.ops| == |s.ops| + 1 &&
      (ok <==> source in s.existing && (move || source != dest)) &&
      (ok ==> dest in r.existing && r.sorted == s.sorted + 1) &&
      (ok && move && source != dest ==> source !in r.existing) &&
      (!ok ==> r.existing == s.existing && r.sorted == s.sorted)
  {
    var r := Transfer(s, source, dest, move);
    assert r.ops[..|s.ops|] == s.ops;
  }

  /** `sorted` counts the operations that succeeded. */
  function CountOk(ops: seq<Op>): (r: nat)
    ensures r <= |ops|
  {
    if ops == [] then 0 else CountOk(ops[..|ops| - 1]) + if ops[|ops| - 1].ok then 1 else 0
  }

  /** A transfer appends one operation and counts it when it succeeded. */
  lemma TransferCounts(s: Sorting, source: string, dest: string, move: bool)
    requires s.sorted == CountOk(s.ops)
    ensures Transfer(s, source, dest, move).sorted == CountOk(Transfer(s, source, dest, move).ops)
  {
    var r := Transfer(s, source, dest, move);
    assert r.ops[..|r.ops| - 1] == s.ops;
  }
}
