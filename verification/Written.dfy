/** A composition as it is written, without the brackets around nested Serials and Parallels. */
module Written {
  import opened MorphismTree

  /** What stands in the text: leaves, what separates neighbours, and the ends of loops and instances. */
  datatype Token =
    | Passed(leaf: Leaf)
    | Boundary(policy: BoundaryPolicy)
    | Beside
    | LoopOpens(count: ValueId)
    | InstanceOpens(channel: string)
    | Closes

  function Text(t: Tree): seq<Token>
    requires Shaped(t)
    decreases t, 1
  {
    match t
    case LeafTree(leaf, _) => [Passed(leaf)]
    case InstanceTree(channel, body, _) => [InstanceOpens(channel)] + Text(body) + [Closes]
    case LoopTree(body, count, _) => [LoopOpens(count)] + Text(body) + [Closes]
    case SerialTree(ts, bs, _) => SerialText(ts, bs)
    case ParallelTree(ts, _) => ParallelText(ts)
  }

  /** Operands with a boundary between each pair of neighbours. */
  function SerialText(ts: seq<Tree>, bs: seq<BoundaryPolicy>): seq<Token>
    requires |bs| == |ts| - 1 && forall c | c in ts :: Shaped(c)
    decreases ts, 0
  {
    var last := |ts| - 1;
    assert ts[last] in ts;
    if last == 0 then Text(ts[0])
    else SerialText(ts[..last], bs[..last - 1]) + [Boundary(bs[last - 1])] + Text(ts[last])
  }

  function ParallelText(ts: seq<Tree>): seq<Token>
    requires ts != [] && forall c | c in ts :: Shaped(c)
    decreases ts, 0
  {
    var last := |ts| - 1;
    assert ts[last] in ts;
    if last == 0 then Text(ts[0]) else ParallelText(ts[..last]) + [Beside] + Text(ts[last])
  }

  /** One operand more. */
  lemma SerialTextTake(ts: seq<Tree>, bs: seq<BoundaryPolicy>, n: nat)
    requires |bs| == |ts| - 1 && (forall c | c in ts :: Shaped(c)) && 1 < n <= |ts|
    ensures Shaped(ts[n - 1]) && (forall c | c in ts[..n] :: Shaped(c)) && forall c | c in ts[..n - 1] :: Shaped(c)
    ensures SerialText(ts[..n], bs[..n - 1]) ==
      SerialText(ts[..n - 1], bs[..n - 2]) + [Boundary(bs[n - 2])] + Text(ts[n - 1])
  {
    assert ts[..n][..n - 1] == ts[..n - 1] && bs[..n - 1][..n - 2] == bs[..n - 2];
  }

  lemma ParallelTextTake(ts: seq<Tree>, n: nat)
    requires (forall c | c in ts :: Shaped(c)) && 1 < n <= |ts|
    ensures Shaped(ts[n - 1]) && (forall c | c in ts[..n] :: Shaped(c)) && forall c | c in ts[..n - 1] :: Shaped(c)
    ensures ParallelText(ts[..n]) == ParallelText(ts[..n - 1]) + [Beside] + Text(ts[n - 1])
  {
    assert ts[..n][..n - 1] == ts[..n - 1];
  }

  // ---- joining operands

  lemma {:induction false} SerialTextAppend(xs: seq<Tree>, before: seq<BoundaryPolicy>, b: BoundaryPolicy,
      ys: seq<Tree>, after: seq<BoundaryPolicy>)
    requires |before| == |xs| - 1 && |after| == |ys| - 1
    requires (forall c | c in xs :: Shaped(c)) && forall c | c in ys :: Shaped(c)
    ensures |before + [b] + after| == |xs + ys| - 1 && forall c | c in xs + ys :: Shaped(c)
    ensures SerialText(xs + ys, before + [b] + after) == SerialText(xs, before) + [Boundary(b)] + SerialText(ys, after)
    decreases |ys|
  {
    var zs, bz, last := xs + ys, before + [b] + after, |ys| - 1;
    if last == 0 {
      assert zs[..|zs| - 1] == xs && bz[..|zs| - 2] == before;
    } else {
      SerialTextAppend(xs, before, b, ys[..last], after[..last - 1]);
      assert zs[..|zs| - 1] == xs + ys[..last] && bz[..|zs| - 2] == before + [b] + after[..last - 1];
    }
  }

  lemma {:induction false} ParallelTextAppend(xs: seq<Tree>, ys: seq<Tree>)
    requires xs != [] && ys != []
    requires (forall c | c in xs :: Shaped(c)) && forall c | c in ys :: Shaped(c)
    ensures forall c | c in xs + ys :: Shaped(c)
    ensures ParallelText(xs + ys) == ParallelText(xs) + [Beside] + ParallelText(ys)
    decreases |ys|
  {
    var zs, last := xs + ys, |ys| - 1;
    if last == 0 {
      assert zs[..|zs| - 1] == xs;
    } else {
      ParallelTextAppend(xs, ys[..last]);
      assert zs[..|zs| - 1] == xs + ys[..last];
    }
  }

  /** Splicing the operands of nested Serials, with their boundaries, leaves the text as it is. */
  lemma {:induction false} JoinedSerialText(ts: seq<Tree>, bs: seq<BoundaryPolicy>)
    requires |bs| == |ts| - 1 && forall c | c in ts :: Shaped(c)
    ensures |JoinSeams(ts, bs)| == |JoinSpines(ts)| - 1 && forall c | c in JoinSpines(ts) :: Shaped(c)
    ensures SerialText(JoinSpines(ts), JoinSeams(ts, bs)) == SerialText(ts, bs)
    decreases |ts|
  {
    var last := |ts| - 1;
    assert ts[last] in ts;
    if last == 0 {
      assert JoinSpines(ts) == Spine(ts[0]);
    } else {
      JoinedSerialText(ts[..last], bs[..last - 1]);
      SerialTextAppend(JoinSpines(ts[..last]), JoinSeams(ts[..last], bs[..last - 1]), bs[last - 1],
        Spine(ts[last]), Seams(ts[last]));
    }
  }

  lemma {:induction false} JoinedParallelText(ts: seq<Tree>)
    requires ts != [] && forall c | c in ts :: Shaped(c)
    ensures JoinBranches(ts) != [] && forall c | c in JoinBranches(ts) :: Shaped(c)
    ensures ParallelText(JoinBranches(ts)) == ParallelText(ts)
    decreases |ts|
  {
    var last := |ts| - 1;
    assert ts[last] in ts;
    if last == 0 {
      assert JoinBranches(ts) == Branches(ts[0]);
    } else {
      JoinedParallelText(ts[..last]);
      ParallelTextAppend(JoinBranches(ts[..last]), Branches(ts[last]));
    }
  }

  // ---- flattening

  /** The trees have the same text one by one. */
  ghost predicate Alike(ts: seq<Tree>, us: seq<Tree>) {
    && |ts| == |us|
    && forall k :: 0 <= k < |ts| ==> Shaped(ts[k]) && Shaped(us[k]) && Text(ts[k]) == Text(us[k])
  }

  lemma {:induction false} AlikeSerial(ts: seq<Tree>, us: seq<Tree>, bs: seq<BoundaryPolicy>)
    requires Alike(ts, us) && |bs| == |ts| - 1
    ensures (forall c | c in ts :: Shaped(c)) && forall c | c in us :: Shaped(c)
    ensures SerialText(ts, bs) == SerialText(us, bs)
    decreases |ts|
  {
    var last := |ts| - 1;
    if last > 0 {
      AlikeSerial(ts[..last], us[..last], bs[..last - 1]);
    }
  }

  lemma {:induction false} AlikeParallel(ts: seq<Tree>, us: seq<Tree>)
    requires Alike(ts, us) && ts != []
    ensures (forall c | c in ts :: Shaped(c)) && forall c | c in us :: Shaped(c)
    ensures ParallelText(ts) == ParallelText(us)
    decreases |ts|
  {
    var last := |ts| - 1;
    if last > 0 {
      AlikeParallel(ts[..last], us[..last]);
    }
  }

  /** Flattening drops brackets and nothing else: leaves, boundaries, branches, loops and instances stay where they
      are. */
  lemma {:induction false} FlatteningKeepsText(t: Tree)
    requires Shaped(t)
    ensures Shaped(Normalize(t)) && Text(Normalize(t)) == Text(t)
    decreases t, 1
  {
    NormalizeIsFlat(t);
    match t
    case LeafTree(_, _) =>
    case InstanceTree(_, body, _) => FlatteningKeepsText(body);
    case LoopTree(body, _, _) => FlatteningKeepsText(body);
    case SerialTree(ts, bs, _) =>
      OperandsKeepText(t, ts);
      AlikeSerial(NormalizeAll(ts), ts, bs);
      JoinedSerialText(NormalizeAll(ts), bs);
    case ParallelTree(ts, _) =>
      OperandsKeepText(t, ts);
      AlikeParallel(NormalizeAll(ts), ts);
      JoinedParallelText(NormalizeAll(ts));
  }

  lemma {:induction false} OperandsKeepText(t: Tree, ts: seq<Tree>)
    requires Shaped(t) && (t.SerialTree? || t.ParallelTree?) && ts == t.children
    ensures Alike(NormalizeAll(ts), ts)
    decreases t, 0
  {
    forall k | 0 <= k < |ts|
      ensures Shaped(NormalizeAll(ts)[k]) && Text(NormalizeAll(ts)[k]) == Text(ts[k])
    {
      FlatteningKeepsText(ts[k]);
    }
  }
}
