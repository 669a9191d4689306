/** Global-sync epochs: one forward pass over the arena against its recursive meaning. */
module Epochs {
  import opened Common
  import opened MorphismTree
  import opened MorphismArena
  import opened MorphismCollection
  import opened Ways

  const MAX_U32 := 0xFFFF_FFFF

  datatype EpochError = CountOverflow | BranchesDiffer | SyncInsideLoop

  /** How many global syncs a tree crosses; `syncs` names the operations the target lowers to one. */
  function SyncCount(syncs: set<string>, t: Tree): nat
    decreases t, 1
  {
    match t
    case LeafTree(leaf, _) => if leaf.AtomicLeaf? && leaf.operation in syncs then 1 else 0
    case InstanceTree(_, body, _) => SyncCount(syncs, body)
    case SerialTree(ts, _, _) => SyncSum(syncs, ts)
    case ParallelTree(ts, _) => if ts == [] then 0 else SyncCount(syncs, ts[0])
    case LoopTree(_, _, _) => 0
  }

  function SyncSum(syncs: set<string>, ts: seq<Tree>): nat
    decreases ts, 0
  {
    if ts == [] then 0 else SyncSum(syncs, ts[..|ts| - 1]) + SyncCount(syncs, ts[|ts| - 1])
  }

  /** Parallel branches cross equally many syncs and loop bodies cross none, throughout the tree. */
  predicate EpochsAgree(syncs: set<string>, t: Tree)
    decreases t, 1
  {
    match t
    case LeafTree(_, _) => true
    case InstanceTree(_, body, _) => EpochsAgree(syncs, body)
    case SerialTree(ts, _, _) => AllAgree(syncs, ts)
    case ParallelTree(ts, _) => AllAgree(syncs, ts) && (ts != [] ==> AllCross(syncs, ts, SyncCount(syncs, ts[0])))
    case LoopTree(body, _, _) => EpochsAgree(syncs, body) && SyncCount(syncs, body) == 0
  }

  predicate AllAgree(syncs: set<string>, ts: seq<Tree>)
    decreases ts, 0
  {
    ts == [] || (AllAgree(syncs, ts[..|ts| - 1]) && EpochsAgree(syncs, ts[|ts| - 1]))
  }

  predicate AllCross(syncs: set<string>, ts: seq<Tree>, n: nat) {
    ts == [] || (AllCross(syncs, ts[..|ts| - 1], n) && SyncCount(syncs, ts[|ts| - 1]) == n)
  }

  predicate EpochsFit(syncs: set<string>, t: Tree) {
    EpochsAgree(syncs, t) && SyncCount(syncs, t) <= MAX_U32
  }

  // ---- flattening changes neither the counts nor the verdict

  lemma {:induction false} EpochsAppend(syncs: set<string>, xs: seq<Tree>, ys: seq<Tree>, n: nat)
    ensures SyncSum(syncs, xs + ys) == SyncSum(syncs, xs) + SyncSum(syncs, ys)
    ensures AllAgree(syncs, xs + ys) <==> AllAgree(syncs, xs) && AllAgree(syncs, ys)
    ensures AllCross(syncs, xs + ys, n) <==> AllCross(syncs, xs, n) && AllCross(syncs, ys, n)
    decreases |ys|
  {
    if ys == [] {
      assert xs + ys == xs;
    } else {
      assert (xs + ys)[..|xs + ys| - 1] == xs + ys[..|ys| - 1];
      EpochsAppend(syncs, xs, ys[..|ys| - 1], n);
    }
  }

  lemma EpochsOfOne(syncs: set<string>, t: Tree, n: nat)
    ensures SyncSum(syncs, [t]) == SyncCount(syncs, t)
    ensures AllAgree(syncs, [t]) <==> EpochsAgree(syncs, t)
    ensures AllCross(syncs, [t], n) <==> SyncCount(syncs, t) == n
  {
    assert [t][..0] == [];
    assert SyncSum(syncs, [t]) == SyncSum(syncs, [t][..0]) + SyncCount(syncs, t);
    assert AllAgree(syncs, [t]) <==> AllAgree(syncs, [t][..0]) && EpochsAgree(syncs, t);
    assert AllCross(syncs, [t], n) <==> AllCross(syncs, [t][..0], n) && SyncCount(syncs, t) == n;
  }

  lemma {:induction false} JoinSpinesEpochs(syncs: set<string>, ts: seq<Tree>)
    ensures SyncSum(syncs, JoinSpines(ts)) == SyncSum(syncs, ts)
    ensures AllAgree(syncs, JoinSpines(ts)) <==> AllAgree(syncs, ts)
  {
    if ts != [] {
      var init, t := ts[..|ts| - 1], ts[|ts| - 1];
      JoinSpinesEpochs(syncs, init);
      EpochsAppend(syncs, JoinSpines(init), Spine(t), 0);
      EpochsOfOne(syncs, t, 0);
    }
  }

  /** The branches of `t` agree with each other and cross `n` syncs exactly when `t` does. */
  lemma BranchEpochs(syncs: set<string>, t: Tree, n: nat)
    requires Shaped(t)
    ensures Branches(t) != [] && SyncCount(syncs, Branches(t)[0]) == SyncCount(syncs, t)
    ensures AllAgree(syncs, Branches(t)) && AllCross(syncs, Branches(t), n) <==>
      EpochsAgree(syncs, t) && SyncCount(syncs, t) == n
  {
    EpochsOfOne(syncs, t, n);
    if t.ParallelTree? && AllCross(syncs, t.children, n) {
      AllCrossAt(syncs, t.children, n, 0);
    }
  }

  lemma {:induction false} AllCrossAt(syncs: set<string>, ts: seq<Tree>, n: nat, k: nat)
    requires k < |ts| && AllCross(syncs, ts, n)
    ensures SyncCount(syncs, ts[k]) == n
    decreases |ts|
  {
    if k < |ts| - 1 {
      AllCrossAt(syncs, ts[..|ts| - 1], n, k);
    }
  }

  lemma {:induction false} AllAgreeAt(syncs: set<string>, ts: seq<Tree>, k: nat)
    requires k < |ts| && AllAgree(syncs, ts)
    ensures EpochsAgree(syncs, ts[k]) && SyncCount(syncs, ts[k]) <= SyncSum(syncs, ts)
    decreases |ts|
  {
    if k < |ts| - 1 {
      AllAgreeAt(syncs, ts[..|ts| - 1], k);
    }
  }

  lemma {:induction false} JoinBranchesEpochs(syncs: set<string>, ts: seq<Tree>, n: nat)
    requires forall k :: 0 <= k < |ts| ==> Shaped(ts[k])
    ensures ts != [] ==> JoinBranches(ts) != [] && SyncCount(syncs, JoinBranches(ts)[0]) == SyncCount(syncs, ts[0])
    ensures AllAgree(syncs, JoinBranches(ts)) && AllCross(syncs, JoinBranches(ts), n) <==>
      AllAgree(syncs, ts) && AllCross(syncs, ts, n)
  {
    if ts != [] {
      var init, t := ts[..|ts| - 1], ts[|ts| - 1];
      JoinBranchesEpochs(syncs, init, n);
      BranchEpochs(syncs, t, n);
      EpochsAppend(syncs, JoinBranches(init), Branches(t), n);
    }
  }

  lemma {:induction false} PointwiseEpochs(syncs: set<string>, ts: seq<Tree>, us: seq<Tree>, n: nat)
    requires |ts| == |us|
    requires forall k :: 0 <= k < |ts| ==>
      SyncCount(syncs, ts[k]) == SyncCount(syncs, us[k]) && (EpochsAgree(syncs, ts[k]) <==> EpochsAgree(syncs, us[k]))
    ensures SyncSum(syncs, ts) == SyncSum(syncs, us)
    ensures AllAgree(syncs, ts) <==> AllAgree(syncs, us)
    ensures AllCross(syncs, ts, n) <==> AllCross(syncs, us, n)
  {
    if ts != [] {
      PointwiseEpochs(syncs, ts[..|ts| - 1], us[..|us| - 1], n);
    }
  }

  /** The sync count of a composition, and whether it is accepted, do not depend on flattening. */
  lemma {:induction false} FlatteningKeepsEpochs(syncs: set<string>, t: Tree)
    requires Shaped(t)
    ensures SyncCount(syncs, Normalize(t)) == SyncCount(syncs, t)
    ensures EpochsAgree(syncs, Normalize(t)) <==> EpochsAgree(syncs, t)
    decreases t
  {
    match t
    case LeafTree(_, _) =>
    case InstanceTree(_, body, _) => FlatteningKeepsEpochs(syncs, body);
    case LoopTree(body, _, _) => FlatteningKeepsEpochs(syncs, body);
    case SerialTree(ts, _, _) =>
      var rs := NormalizeAll(ts);
      forall k | 0 <= k < |ts|
        ensures SyncCount(syncs, ts[k]) == SyncCount(syncs, rs[k])
        ensures (EpochsAgree(syncs, ts[k]) <==> EpochsAgree(syncs, rs[k]))
      {
        FlatteningKeepsEpochs(syncs, ts[k]);
      }
      PointwiseEpochs(syncs, ts, rs, 0);
      JoinSpinesEpochs(syncs, rs);
    case ParallelTree(ts, _) =>
      var rs := NormalizeAll(ts);
      forall k | 0 <= k < |ts|
        ensures SyncCount(syncs, ts[k]) == SyncCount(syncs, rs[k])
        ensures (EpochsAgree(syncs, ts[k]) <==> EpochsAgree(syncs, rs[k]))
        ensures Shaped(rs[k])
      {
        FlatteningKeepsEpochs(syncs, ts[k]);
        NormalizeIsFlat(ts[k]);
      }
      var n := SyncCount(syncs, ts[0]);
      PointwiseEpochs(syncs, ts, rs, n);
      JoinBranchesEpochs(syncs, rs, n);
  }

  // ---- what the count means: the syncs crossed on every way

  /** How many of the operations passed on a way are global syncs. */
  function Crossed(syncs: set<string>, w: seq<Leaf>): nat {
    if w == [] then 0
    else
      var last := w[|w| - 1];
      Crossed(syncs, w[..|w| - 1]) + if last.AtomicLeaf? && last.operation in syncs then 1 else 0
  }

  /** Every way through the tree crosses this many global syncs. */
  ghost predicate Crosses(syncs: set<string>, t: Tree, n: nat) {
    forall w | IsWay(t, w) :: Crossed(syncs, w) == n
  }

  /** All ways through the tree cross equally many global syncs, and 32 bits hold the number. */
  ghost predicate WaysAgree(syncs: set<string>, t: Tree) {
    exists n: nat :: n <= 0xFFFF_FFFF && Crosses(syncs, t, n)
  }

  lemma {:induction false} CrossedAppend(syncs: set<string>, v: seq<Leaf>, w: seq<Leaf>)
    ensures Crossed(syncs, v + w) == Crossed(syncs, v) + Crossed(syncs, w)
    decreases |w|
  {
    if w == [] {
      assert v + w == v;
    } else {
      assert (v + w)[..|v + w| - 1] == v + w[..|w| - 1];
      CrossedAppend(syncs, v, w[..|w| - 1]);
    }
  }

  lemma CrossedOne(syncs: set<string>, leaf: Leaf)
    ensures Crossed(syncs, [leaf]) == if leaf.AtomicLeaf? && leaf.operation in syncs then 1 else 0
  {
    assert [leaf][..0] == [];
  }

  /** In a tree that agrees every way crosses its sync count. */
  lemma {:induction false} AgreedWay(syncs: set<string>, t: Tree, w: seq<Leaf>)
    requires EpochsAgree(syncs, t) && IsWay(t, w)
    ensures Crossed(syncs, w) == SyncCount(syncs, t)
    decreases t, 1, 0
  {
    match t
    case LeafTree(leaf, _) => CrossedOne(syncs, leaf);
    case InstanceTree(_, body, _) => AgreedWay(syncs, body, w);
    case SerialTree(ts, _, _) => AgreedThrough(syncs, ts, w);
    case ParallelTree(ts, _) =>
      var k :| 0 <= k < |ts| && IsWay(ts[k], w);
      AllAgreeAt(syncs, ts, k);
      AllCrossAt(syncs, ts, SyncCount(syncs, ts[0]), k);
      AgreedWay(syncs, ts[k], w);
    case LoopTree(body, _, _) =>
      var turns: nat :| IsTurns(body, turns, w);
      AgreedTurns(syncs, body, turns, w);
  }

  lemma {:induction false} AgreedThrough(syncs: set<string>, ts: seq<Tree>, w: seq<Leaf>)
    requires AllAgree(syncs, ts) && IsWayThrough(ts, w)
    ensures Crossed(syncs, w) == SyncSum(syncs, ts)
    decreases ts, 0, 0
  {
    if ts != [] {
      var k :| 0 <= k <= |w| && IsWayThrough(ts[..|ts| - 1], w[..k]) && IsWay(ts[|ts| - 1], w[k..]);
      AgreedThrough(syncs, ts[..|ts| - 1], w[..k]);
      AgreedWay(syncs, ts[|ts| - 1], w[k..]);
      CrossedAppend(syncs, w[..k], w[k..]);
      assert w == w[..k] + w[k..];
    }
  }

  lemma {:induction false} AgreedTurns(syncs: set<string>, body: Tree, turns: nat, w: seq<Leaf>)
    requires EpochsAgree(syncs, body) && SyncCount(syncs, body) == 0 && IsTurns(body, turns, w)
    ensures Crossed(syncs, w) == 0
    decreases body, 2, turns
  {
    if turns > 0 {
      var k :| 0 <= k <= |w| && IsTurns(body, turns - 1, w[..k]) && IsWay(body, w[k..]);
      AgreedTurns(syncs, body, turns - 1, w[..k]);
      AgreedWay(syncs, body, w[k..]);
      CrossedAppend(syncs, w[..k], w[k..]);
      assert w == w[..k] + w[k..];
    }
  }

  /** If all ways cross equally many syncs, the tree agrees throughout. */
  lemma {:induction false} WaysDecide(syncs: set<string>, t: Tree, n: nat)
    requires Shaped(t) && Crosses(syncs, t, n)
    ensures EpochsAgree(syncs, t) && SyncCount(syncs, t) == n
    decreases t, 1
  {
    match t
    case LeafTree(leaf, _) =>
      assert IsWay(t, [leaf]);
      CrossedOne(syncs, leaf);
    case InstanceTree(_, body, _) =>
      assert forall w | IsWay(body, w) :: IsWay(t, w);
      WaysDecide(syncs, body, n);
    case SerialTree(ts, _, _) =>
      assert forall w | IsWayThrough(ts, w) :: IsWay(t, w);
      WaysDecideAll(syncs, ts, n);
    case ParallelTree(ts, _) =>
      forall k | 0 <= k < |ts| ensures EpochsAgree(syncs, ts[k]) && SyncCount(syncs, ts[k]) == n {
        assert forall w | IsWay(ts[k], w) :: IsWay(t, w);
        WaysDecide(syncs, ts[k], n);
      }
      AllAgreeFrom(syncs, ts);
      AllCrossFrom(syncs, ts, n);
    case LoopTree(body, _, _) => LoopDecides(syncs, t, n);
  }

  lemma {:induction false} LoopDecides(syncs: set<string>, t: Tree, n: nat)
    requires Shaped(t) && t.LoopTree? && Crosses(syncs, t, n)
    ensures EpochsAgree(syncs, t) && n == 0
    decreases t, 0
  {
    assert IsTurns(t.body, 0, []) && IsWay(t, []) && Crossed(syncs, []) == 0;
    forall w | IsWay(t.body, w) ensures Crossed(syncs, w) == 0 {
      OneTurn(t.body, w);
      assert IsWay(t, w);
    }
    WaysDecide(syncs, t.body, 0);
  }

  /** If all ways through a sequence cross equally many syncs, so do those through each part. */
  lemma {:induction false} WaysDecideAll(syncs: set<string>, ts: seq<Tree>, n: nat)
    requires (forall t | t in ts :: Shaped(t)) && forall w | IsWayThrough(ts, w) :: Crossed(syncs, w) == n
    ensures AllAgree(syncs, ts) && SyncSum(syncs, ts) == n
    decreases ts, 0
  {
    if ts == [] {
      assert IsWayThrough(ts, []);
    } else {
      var init, last := ts[..|ts| - 1], ts[|ts| - 1];
      assert last in ts;
      var p := SomeWayThrough(init);
      var q := SomeWay(last);
      forall w | IsWayThrough(init, w) ensures Crossed(syncs, w) == Crossed(syncs, p) {
        SplitCrossing(syncs, ts, w, q, n);
        SplitCrossing(syncs, ts, p, q, n);
      }
      forall w | IsWay(last, w) ensures Crossed(syncs, w) == Crossed(syncs, q) {
        SplitCrossing(syncs, ts, p, w, n);
        SplitCrossing(syncs, ts, p, q, n);
      }
      WaysDecideAll(syncs, init, Crossed(syncs, p));
      WaysDecide(syncs, last, Crossed(syncs, q));
      SplitCrossing(syncs, ts, p, q, n);
    }
  }

  lemma SplitCrossing(syncs: set<string>, ts: seq<Tree>, v: seq<Leaf>, w: seq<Leaf>, n: nat)
    requires ts != [] && IsWayThrough(ts[..|ts| - 1], v) && IsWay(ts[|ts| - 1], w)
    requires forall u | IsWayThrough(ts, u) :: Crossed(syncs, u) == n
    ensures Crossed(syncs, v) + Crossed(syncs, w) == n
  {
    WayAfter(ts, v, w);
    CrossedAppend(syncs, v, w);
  }

  lemma {:induction false} AllCrossFrom(syncs: set<string>, ts: seq<Tree>, n: nat)
    requires forall k :: 0 <= k < |ts| ==> SyncCount(syncs, ts[k]) == n
    ensures AllCross(syncs, ts, n)
  {
    if ts != [] {
      AllCrossFrom(syncs, ts[..|ts| - 1], n);
    }
  }

  lemma {:induction false} AllAgreeFrom(syncs: set<string>, ts: seq<Tree>)
    requires forall k :: 0 <= k < |ts| ==> EpochsAgree(syncs, ts[k])
    ensures AllAgree(syncs, ts)
  {
    if ts != [] {
      AllAgreeFrom(syncs, ts[..|ts| - 1]);
    }
  }

  /** A tree is accepted exactly when all ways through it agree, and its count is what they cross. */
  lemma EpochsMean(syncs: set<string>, t: Tree)
    requires Shaped(t)
    ensures EpochsFit(syncs, t) <==> WaysAgree(syncs, t)
    ensures EpochsFit(syncs, t) ==> Crosses(syncs, t, SyncCount(syncs, t))
  {
    if EpochsFit(syncs, t) {
      forall w | IsWay(t, w) ensures Crossed(syncs, w) == SyncCount(syncs, t) {
        AgreedWay(syncs, t, w);
      }
      assert Crosses(syncs, t, SyncCount(syncs, t));
    }
    if WaysAgree(syncs, t) {
      var n: nat :| n <= MAX_U32 && Crosses(syncs, t, n);
      WaysDecide(syncs, t, n);
    }
  }

  /** The number is fixed: there is a way through every tree. */
  lemma OneNumber(syncs: set<string>, t: Tree, m: nat, n: nat)
    requires Shaped(t) && Crosses(syncs, t, m) && Crosses(syncs, t, n)
    ensures m == n
  {
    var w := SomeWay(t);
  }

  /** A global sync beside another operation is refused, and so is one in a loop. */
  lemma MisplacedSyncIsRefused(syncs: set<string>, sync: string, other: string, count: ValueId)
    requires sync in syncs && other !in syncs
    ensures var a, b := LeafTree(AtomicLeaf(sync, []), 0), LeafTree(AtomicLeaf(other, []), 0);
      && Crosses(syncs, a, 1) && Crosses(syncs, b, 0)
      && !WaysAgree(syncs, ParallelTree([a, b], 0)) && !WaysAgree(syncs, LoopTree(a, count, 0))
  {
    var a, b := LeafTree(AtomicLeaf(sync, []), 0), LeafTree(AtomicLeaf(other, []), 0);
    CrossedOne(syncs, a.leaf);
    CrossedOne(syncs, b.leaf);
    EpochsMean(syncs, ParallelTree([a, b], 0));
    EpochsMean(syncs, LoopTree(a, count, 0));
    AllCrossOfTwo(syncs, a, b);
  }

  lemma AllCrossOfTwo(syncs: set<string>, a: Tree, b: Tree)
    ensures AllCross(syncs, [a, b], SyncCount(syncs, a)) <==> SyncCount(syncs, b) == SyncCount(syncs, a)
  {
    assert [a, b][..1] == [a];
    EpochsOfOne(syncs, a, SyncCount(syncs, a));
  }

  // ---- the forward pass

  /** One pass in index order; every count it reads was filled in before. */
  method AnalyzeEpochs(a: Arena, syncs: set<string>) returns (r: Result<seq<nat>, EpochError>)
    requires WellFormed(a)
    ensures r.Ok? <==> AllFit(a, syncs)
    ensures r.Ok? ==> |r.value| == |a.nodes| && forall i :: 0 <= i < |a.nodes| ==>
      Crosses(syncs, Unfold(a, i), r.value[i])
    ensures r.Err? ==>
      exists i :: 0 <= i < |a.nodes| && FirstMisfit(a, syncs, i) && r.error == MisfitError(a.nodes[i].kind)
  {
    var syncCounts := new nat[|a.nodes|](_ => 0);
    for index := 0 to |a.nodes|
      invariant CountedBelow(a, syncs, syncCounts[..], index)
    {
      assert NodeOk(a, index);
      ghost var counts := syncCounts[..];
      var count := NodeCount(a, syncs, index, syncCounts[..]);
      if count.Err? {
        MisfitFound(a, syncs, counts, index);
        return Err(count.error);
      }
      syncCounts[index] := count.value;
      CountedNext(a, syncs, counts, index, count.value);
      assert syncCounts[..] == counts[index := count.value];
    }
    CountedAll(a, syncs, syncCounts[..]);
    return Ok(syncCounts[..]);
  }

  lemma CountedNext(a: Arena, syncs: set<string>, counts: seq<nat>, n: nat, count: nat)
    requires WellFormed(a) && n < |a.nodes| && CountedBelow(a, syncs, counts, n)
    requires EpochsFit(syncs, Unfold(a, n)) && count == SyncCount(syncs, Unfold(a, n))
    ensures CountedBelow(a, syncs, counts[n := count], n + 1)
  {
  }

  lemma CountedAll(a: Arena, syncs: set<string>, counts: seq<nat>)
    requires WellFormed(a) && CountedBelow(a, syncs, counts, |a.nodes|)
    ensures forall i :: 0 <= i < |a.nodes| ==> WaysAgree(syncs, Unfold(a, i)) && Crosses(syncs, Unfold(a, i), counts[i])
  {
    forall i | 0 <= i < |a.nodes|
      ensures WaysAgree(syncs, Unfold(a, i)) && Crosses(syncs, Unfold(a, i), counts[i])
    {
      UnfoldIsFlat(a, i);
      EpochsMean(syncs, Unfold(a, i));
    }
  }

  lemma MisfitFound(a: Arena, syncs: set<string>, counts: seq<nat>, n: nat)
    requires WellFormed(a) && n < |a.nodes| && CountedBelow(a, syncs, counts, n) && !EpochsFit(syncs, Unfold(a, n))
    ensures FirstMisfit(a, syncs, n)
  {
    forall i: nat | i <= n ensures EpochsFit(syncs, Unfold(a, i)) <==> WaysAgree(syncs, Unfold(a, i)) {
      UnfoldIsFlat(a, i);
      EpochsMean(syncs, Unfold(a, i));
    }
  }

  /** The first node with ways that do not agree. */
  ghost predicate FirstMisfit(a: Arena, syncs: set<string>, i: nat)
    requires WellFormed(a) && i < |a.nodes|
  {
    !WaysAgree(syncs, Unfold(a, i)) && forall k :: 0 <= k < i ==> WaysAgree(syncs, Unfold(a, k))
  }

  function MisfitError(kind: Kind): EpochError {
    if kind == Serial then CountOverflow else if kind == Parallel then BranchesDiffer else SyncInsideLoop
  }

  /** The counts recorded so far are those of the earlier nodes' trees, all of which fit. */
  ghost predicate CountedBelow(a: Arena, syncs: set<string>, counts: seq<nat>, n: nat)
    requires WellFormed(a)
  {
    n <= |counts| == |a.nodes| &&
    forall k :: 0 <= k < n ==> EpochsFit(syncs, Unfold(a, k)) && counts[k] == SyncCount(syncs, Unfold(a, k))
  }

  method NodeCount(a: Arena, syncs: set<string>, index: nat, counts: seq<nat>) returns (r: Result<nat, EpochError>)
    requires WellFormed(a) && index < |a.nodes| && NodeOk(a, index) && CountedBelow(a, syncs, counts, index)
    ensures r.Ok? <==> EpochsFit(syncs, Unfold(a, index))
    ensures r.Ok? ==> r.value == SyncCount(syncs, Unfold(a, index))
    ensures r.Err? ==> r.error == MisfitError(a.nodes[index].kind)
  {
    var node := a.nodes[index];
    match node.kind {
      case Atomic =>
        return Ok(if a.operations[a.payloads[node.payload.value].operation] in syncs then 1 else 0);
      case Instantiate =>
        return Ok(counts[a.templates[a.payloads[node.payload.value].template]]);
      case Serial =>
        var sum := SerialCount(a, syncs, index, counts);
        return if sum.None? then Err(CountOverflow) else Ok(sum.value);
      case Parallel =>
        var same := BranchCount(a, syncs, index, counts);
        return if same.None? then Err(BranchesDiffer) else Ok(same.value);
      case Loop =>
        return if counts[Children(a, index)[0]] != 0 then Err(SyncInsideLoop) else Ok(0);
      case _ =>
        return Ok(0);
    }
  }

  lemma CountedChildren(a: Arena, syncs: set<string>, index: nat, counts: seq<nat>)
    requires WellFormed(a) && index < |a.nodes| && NodeOk(a, index) && CountedBelow(a, syncs, counts, index)
    ensures forall k :: 0 <= k < |Children(a, index)| ==>
      counts[Children(a, index)[k]] == SyncCount(syncs, UnfoldChildren(a, index)[k])
    ensures AllAgree(syncs, UnfoldChildren(a, index))
  {
    AllAgreeFrom(syncs, UnfoldChildren(a, index));
  }

  /** The counts of the children are those of their trees. */
  ghost predicate CountsOf(syncs: set<string>, children: seq<nat>, counts: seq<nat>, ts: seq<Tree>) {
    |children| == |ts| && forall k :: 0 <= k < |children| ==>
      children[k] < |counts| && counts[children[k]] == SyncCount(syncs, ts[k])
  }

  lemma SumStep(syncs: set<string>, ts: seq<Tree>, k: nat)
    requires k < |ts|
    ensures SyncSum(syncs, ts[..k + 1]) == SyncSum(syncs, ts[..k]) + SyncCount(syncs, ts[k]) <= SyncSum(syncs, ts)
  {
    assert ts[..k + 1][..k] == ts[..k];
    assert ts == ts[..k + 1] + ts[k + 1..];
    EpochsAppend(syncs, ts[..k + 1], ts[k + 1..], 0);
  }

  /** Add up the counts of the children, as long as the sum fits. */
  method AddCounts(children: seq<nat>, counts: seq<nat>, ghost syncs: set<string>, ghost ts: seq<Tree>)
    returns (r: Option<nat>)
    requires CountsOf(syncs, children, counts, ts)
    ensures r.Some? <==> SyncSum(syncs, ts) <= MAX_U32
    ensures r.Some? ==> r.value == SyncSum(syncs, ts)
  {
    var count := 0;
    for k := 0 to |children|
      invariant count == SyncSum(syncs, ts[..k]) <= MAX_U32
    {
      SumStep(syncs, ts, k);
      if count + counts[children[k]] > MAX_U32 {
        return None;
      }
      count := count + counts[children[k]];
    }
    assert ts[..|children|] == ts;
    return Some(count);
  }

  method SerialCount(a: Arena, syncs: set<string>, index: nat, counts: seq<nat>) returns (r: Option<nat>)
    requires WellFormed(a) && index < |a.nodes| && NodeOk(a, index) && CountedBelow(a, syncs, counts, index)
    requires a.nodes[index].kind == Serial
    ensures r.Some? <==> EpochsFit(syncs, Unfold(a, index))
    ensures r.Some? ==> r.value == SyncCount(syncs, Unfold(a, index))
  {
    CountedChildren(a, syncs, index, counts);
    r := AddCounts(Children(a, index), counts, syncs, UnfoldChildren(a, index));
  }

  lemma CrossStep(syncs: set<string>, ts: seq<Tree>, k: nat, n: nat)
    requires k < |ts|
    ensures AllCross(syncs, ts[..k + 1], n) <==> AllCross(syncs, ts[..k], n) && SyncCount(syncs, ts[k]) == n
    ensures AllCross(syncs, ts, n) ==> AllCross(syncs, ts[..k + 1], n)
  {
    assert ts[..k + 1][..k] == ts[..k];
    assert ts == ts[..k + 1] + ts[k + 1..];
    EpochsAppend(syncs, ts[..k + 1], ts[k + 1..], n);
  }

  /** The count that all children share. */
  method SameCounts(children: seq<nat>, counts: seq<nat>, ghost syncs: set<string>, ghost ts: seq<Tree>)
    returns (r: Option<nat>)
    requires CountsOf(syncs, children, counts, ts) && children != []
    ensures r.Some? <==> AllCross(syncs, ts, SyncCount(syncs, ts[0]))
    ensures r.Some? ==> r.value == SyncCount(syncs, ts[0])
  {
    var first := counts[children[0]];
    for k := 0 to |children|
      invariant AllCross(syncs, ts[..k], first)
    {
      CrossStep(syncs, ts, k, first);
      if counts[children[k]] != first {
        return None;
      }
    }
    assert ts[..|children|] == ts;
    return Some(first);
  }

  method BranchCount(a: Arena, syncs: set<string>, index: nat, counts: seq<nat>) returns (r: Option<nat>)
    requires WellFormed(a) && index < |a.nodes| && NodeOk(a, index) && CountedBelow(a, syncs, counts, index)
    requires a.nodes[index].kind == Parallel
    ensures r.Some? <==> EpochsFit(syncs, Unfold(a, index))
    ensures r.Some? ==> r.value == SyncCount(syncs, Unfold(a, index))
  {
    CountedChildren(a, syncs, index, counts);
    r := SameCounts(Children(a, index), counts, syncs, UnfoldChildren(a, index));
  }

  // ---- the verdict on a collected program is the verdict on its root and its templates

  /** What is passed on a way through a child is passed on a way through its parent, or not at all. */
  lemma ChildWaysAgree(a: Arena, syncs: set<string>, p: nat, i: nat)
    requires WellFormed(a) && Edge(a, p, i) && i < |a.nodes| && WaysAgree(syncs, Unfold(a, p))
    ensures WaysAgree(syncs, Unfold(a, i))
  {
    assert NodeOk(a, p);
    var k :| 0 <= k < |Children(a, p)| && Children(a, p)[k] == i;
    UnfoldIsFlat(a, p);
    UnfoldIsFlat(a, i);
    EpochsMean(syncs, Unfold(a, p));
    EpochsMean(syncs, Unfold(a, i));
    TreeChildFits(syncs, Unfold(a, p), UnfoldChildren(a, p), k);
  }

  lemma TreeChildFits(syncs: set<string>, t: Tree, ts: seq<Tree>, k: nat)
    requires EpochsFit(syncs, t) && k < |ts|
    requires if t.LoopTree? then ts == [t.body] else (t.SerialTree? || t.ParallelTree?) && ts == t.children
    ensures EpochsFit(syncs, ts[k])
  {
    if !t.LoopTree? {
      AllAgreeAt(syncs, ts, k);
    }
    if t.ParallelTree? {
      AllCrossAt(syncs, ts, SyncCount(syncs, ts[0]), k);
    }
  }

  lemma {:induction false} ReachedWaysAgree(a: Arena, syncs: set<string>, roots: seq<nat>, i: nat, n: nat)
    requires WellFormed(a) && ReachedIn(a, roots, i, n)
    requires forall x: nat | x in roots :: x < |a.nodes| && WaysAgree(syncs, Unfold(a, x))
    ensures WaysAgree(syncs, Unfold(a, i))
    decreases n
  {
    if n > 0 {
      var p := ReachedFrom(a, roots, i, n);
      ReachedWaysAgree(a, syncs, roots, p, n - 1);
      ChildWaysAgree(a, syncs, p, i);
    }
  }

  ghost predicate AllFit(a: Arena, syncs: set<string>)
    requires WellFormed(a)
  {
    forall i :: 0 <= i < |a.nodes| ==> WaysAgree(syncs, Unfold(a, i))
  }

  ghost predicate RootsFit(a: Arena, syncs: set<string>, root: nat)
    requires WellFormed(a) && root < |a.nodes|
  {
    && WaysAgree(syncs, Unfold(a, root))
    && forall t :: 0 <= t < |a.templates| ==> WaysAgree(syncs, Unfold(a, a.templates[t]))
  }

  lemma RootsFitSuffices(p: Program, syncs: set<string>)
    requires WellFormed(p.arena) && p.root < |p.arena.nodes| && RootsFit(p.arena, syncs, p.root)
    requires forall j: nat :: j < |p.arena.nodes| ==> Reachable(p.arena, Roots(p.arena, p.root), j)
    ensures AllFit(p.arena, syncs)
  {
    var roots := Roots(p.arena, p.root);
    forall x: nat | x in roots ensures x < |p.arena.nodes| && WaysAgree(syncs, Unfold(p.arena, x)) {
      if x != p.root {
        var t :| 0 <= t < |p.arena.templates| && p.arena.templates[t] == x;
      }
    }
    forall i: nat | i < |p.arena.nodes| ensures WaysAgree(syncs, Unfold(p.arena, i)) {
      assert Reachable(p.arena, roots, i);
      var n: nat :| ReachedIn(p.arena, roots, i, n);
      ReachedWaysAgree(p.arena, syncs, roots, i, n);
    }
  }

  /** Analysing what collection made of arena `a` accepts exactly when the trees of the root
      and of every template, before collection, have ways that agree. */
  lemma CollectedVerdict(a: Arena, root: nat, p: Program, syncs: set<string>)
    requires WellFormed(a) && root < |a.nodes| && Collected(a, root, p)
    ensures AllFit(p.arena, syncs) <==> RootsFit(a, syncs, root)
  {
    assert RootsFit(a, syncs, root) <==> RootsFit(p.arena, syncs, p.root);
    if RootsFit(p.arena, syncs, p.root) {
      RootsFitSuffices(p, syncs);
    }
  }
}
