/** The ways through a composition: which leaves are passed, in order, when one branch of every
    Parallel is followed and every Loop is taken any number of times. */
module Ways {
  import opened MorphismTree

  /** `w` is a way through `t`. */
  ghost predicate IsWay(t: Tree, w: seq<Leaf>)
    decreases t, 1, 0
  {
    match t
    case LeafTree(leaf, _) => w == [leaf]
    case InstanceTree(_, body, _) => IsWay(body, w)
    case SerialTree(ts, _, _) => IsWayThrough(ts, w)
    case ParallelTree(ts, _) => exists k :: 0 <= k < |ts| && IsWay(ts[k], w)
    case LoopTree(body, _, _) => exists turns: nat :: IsTurns(body, turns, w)
  }

  /** A way through all of these, one after the other. */
  ghost predicate IsWayThrough(ts: seq<Tree>, w: seq<Leaf>)
    decreases ts, 0, 0
  {
    if ts == [] then w == []
    else exists k :: 0 <= k <= |w| && IsWayThrough(ts[..|ts| - 1], w[..k]) && IsWay(ts[|ts| - 1], w[k..])
  }

  /** So many turns through the body of a loop. */
  ghost predicate IsTurns(body: Tree, turns: nat, w: seq<Leaf>)
    decreases body, 2, turns
  {
    if turns == 0 then w == []
    else exists k :: 0 <= k <= |w| && IsTurns(body, turns - 1, w[..k]) && IsWay(body, w[k..])
  }

  lemma WayAfter(ts: seq<Tree>, v: seq<Leaf>, w: seq<Leaf>)
    requires ts != [] && IsWayThrough(ts[..|ts| - 1], v) && IsWay(ts[|ts| - 1], w)
    ensures IsWayThrough(ts, v + w)
  {
    assert (v + w)[..|v|] == v && (v + w)[|v|..] == w;
  }

  lemma OneTurn(body: Tree, w: seq<Leaf>)
    requires IsWay(body, w)
    ensures IsTurns(body, 1, w) && IsTurns(body, 0, [])
  {
    assert w[..0] == [] && w[0..] == w && IsTurns(body, 0, w[..0]);
  }

  /** There is a way through every composition. */
  lemma {:induction false} SomeWay(t: Tree) returns (w: seq<Leaf>)
    requires Shaped(t)
    ensures IsWay(t, w)
    decreases t, 1
  {
    match t
    case LeafTree(leaf, _) => w := [leaf];
    case InstanceTree(_, body, _) => w := SomeWay(body);
    case SerialTree(ts, _, _) => w := SomeWayThrough(ts);
    case ParallelTree(ts, _) => w := SomeWay(ts[0]);
    case LoopTree(body, _, _) =>
      w := [];
      assert IsTurns(body, 0, w);
  }

  lemma {:induction false} SomeWayThrough(ts: seq<Tree>) returns (w: seq<Leaf>)
    requires forall t | t in ts :: Shaped(t)
    ensures IsWayThrough(ts, w)
    decreases ts, 0
  {
    if ts == [] {
      w := [];
    } else {
      var v := SomeWayThrough(ts[..|ts| - 1]);
      assert ts[|ts| - 1] in ts;
      w := SomeWay(ts[|ts| - 1]);
      WayAfter(ts, v, w);
      w := v + w;
    }
  }

  // ---- flattening keeps the ways

  lemma {:induction false} ThroughAppend(xs: seq<Tree>, ys: seq<Tree>, v: seq<Leaf>, w: seq<Leaf>)
    requires IsWayThrough(xs, v) && IsWayThrough(ys, w)
    ensures IsWayThrough(xs + ys, v + w)
    decreases |ys|
  {
    if ys == [] {
      assert xs + ys == xs && v + w == v;
    } else {
      var k :| 0 <= k <= |w| && IsWayThrough(ys[..|ys| - 1], w[..k]) && IsWay(ys[|ys| - 1], w[k..]);
      ThroughAppend(xs, ys[..|ys| - 1], v, w[..k]);
      assert (xs + ys)[..|xs + ys| - 1] == xs + ys[..|ys| - 1];
      WayAfter(xs + ys, v + w[..k], w[k..]);
      assert v + w[..k] + w[k..] == v + w;
    }
  }

  lemma {:induction false} ThroughSplit(xs: seq<Tree>, ys: seq<Tree>, w: seq<Leaf>) returns (k: nat)
    requires IsWayThrough(xs + ys, w)
    ensures k <= |w| && IsWayThrough(xs, w[..k]) && IsWayThrough(ys, w[k..])
    decreases |ys|
  {
    if ys == [] {
      assert xs + ys == xs && w[..|w|] == w;
      k := |w|;
    } else {
      var zs := xs + ys;
      var j :| 0 <= j <= |w| && IsWayThrough(zs[..|zs| - 1], w[..j]) && IsWay(zs[|zs| - 1], w[j..]);
      assert zs[..|zs| - 1] == xs + ys[..|ys| - 1];
      k := ThroughSplit(xs, ys[..|ys| - 1], w[..j]);
      assert w[..j][..k] == w[..k] && w[k..][..j - k] == w[..j][k..] && w[k..][j - k..] == w[j..];
    }
  }

  lemma ThroughOne(t: Tree, w: seq<Leaf>)
    ensures IsWayThrough([t], w) <==> IsWay(t, w)
  {
    assert [t][..0] == [];
    if IsWay(t, w) {
      assert w[..0] == [] && w[0..] == w && IsWayThrough([t][..0], w[..0]);
    }
    if IsWayThrough([t], w) {
      var k :| 0 <= k <= |w| && IsWayThrough([t][..0], w[..k]) && IsWay(t, w[k..]);
      assert w[k..] == w;
    }
  }

  /** The operands a tree contributes to a Serial are passed as the tree is. */
  lemma SpineWays(t: Tree, w: seq<Leaf>)
    ensures IsWayThrough(Spine(t), w) <==> IsWay(t, w)
  {
    if !t.SerialTree? {
      ThroughOne(t, w);
    }
  }

  lemma {:induction false} JoinedSpines(ts: seq<Tree>, w: seq<Leaf>)
    ensures IsWayThrough(JoinSpines(ts), w) <==> IsWayThrough(ts, w)
  {
    if ts != [] {
      var init, last := ts[..|ts| - 1], ts[|ts| - 1];
      if IsWayThrough(ts, w) {
        var k :| 0 <= k <= |w| && IsWayThrough(init, w[..k]) && IsWay(last, w[k..]);
        JoinedSpines(init, w[..k]);
        SpineWays(last, w[k..]);
        ThroughAppend(JoinSpines(init), Spine(last), w[..k], w[k..]);
        assert w[..k] + w[k..] == w;
      }
      if IsWayThrough(JoinSpines(ts), w) {
        var k := ThroughSplit(JoinSpines(init), Spine(last), w);
        JoinedSpines(init, w[..k]);
        SpineWays(last, w[k..]);
      }
    }
  }

  /** Some of these is passed on this way. */
  ghost predicate IsBranchWay(ts: seq<Tree>, w: seq<Leaf>) {
    exists k :: 0 <= k < |ts| && IsWay(ts[k], w)
  }

  lemma BranchAppend(xs: seq<Tree>, ys: seq<Tree>, w: seq<Leaf>)
    ensures IsBranchWay(xs + ys, w) <==> IsBranchWay(xs, w) || IsBranchWay(ys, w)
  {
    var zs := xs + ys;
    if k :| 0 <= k < |xs| && IsWay(xs[k], w) {
      assert IsWay(zs[k], w);
    }
    if k :| 0 <= k < |ys| && IsWay(ys[k], w) {
      assert IsWay(zs[|xs| + k], w);
    }
  }

  lemma BranchesWays(t: Tree, w: seq<Leaf>)
    ensures IsBranchWay(Branches(t), w) <==> IsWay(t, w)
  {
    if !t.ParallelTree? && IsWay(t, w) {
      assert IsWay(Branches(t)[0], w);
    }
  }

  lemma {:induction false} JoinedBranches(ts: seq<Tree>, w: seq<Leaf>)
    ensures IsBranchWay(JoinBranches(ts), w) <==> IsBranchWay(ts, w)
  {
    if ts != [] {
      var init, last := ts[..|ts| - 1], ts[|ts| - 1];
      JoinedBranches(init, w);
      BranchAppend(JoinBranches(init), Branches(last), w);
      BranchesWays(last, w);
      assert ts == init + [last];
      BranchAppend(init, [last], w);
      assert IsBranchWay([last], w) <==> IsWay([last][0], w);
    }
  }

  lemma {:induction false} ThroughAlike(ts: seq<Tree>, us: seq<Tree>, w: seq<Leaf>)
    requires |ts| == |us| && forall k, v :: 0 <= k < |ts| ==> (IsWay(ts[k], v) <==> IsWay(us[k], v))
    ensures IsWayThrough(ts, w) <==> IsWayThrough(us, w)
  {
    if ts != [] {
      forall k | 0 <= k <= |w|
        ensures IsWayThrough(ts[..|ts| - 1], w[..k]) <==> IsWayThrough(us[..|us| - 1], w[..k])
      {
        ThroughAlike(ts[..|ts| - 1], us[..|us| - 1], w[..k]);
      }
    }
  }

  lemma {:induction false} TurnsAlike(b: Tree, c: Tree, turns: nat, w: seq<Leaf>)
    requires forall v :: IsWay(b, v) <==> IsWay(c, v)
    ensures IsTurns(b, turns, w) <==> IsTurns(c, turns, w)
    decreases turns
  {
    if turns > 0 {
      forall k | 0 <= k <= |w| ensures IsTurns(b, turns - 1, w[..k]) <==> IsTurns(c, turns - 1, w[..k]) {
        TurnsAlike(b, c, turns - 1, w[..k]);
      }
    }
  }

  /** The flat form has exactly the ways of the composition. */
  lemma {:induction false} FlatteningKeepsWays(t: Tree, w: seq<Leaf>)
    requires Shaped(t)
    ensures IsWay(Normalize(t), w) <==> IsWay(t, w)
    decreases t, 1
  {
    match t
    case LeafTree(_, _) =>
    case InstanceTree(_, body, _) => FlatteningKeepsWays(body, w);
    case LoopTree(body, _, _) =>
      forall v ensures IsWay(Normalize(body), v) <==> IsWay(body, v) {
        FlatteningKeepsWays(body, v);
      }
      forall turns: nat ensures IsTurns(Normalize(body), turns, w) <==> IsTurns(body, turns, w) {
        TurnsAlike(Normalize(body), body, turns, w);
      }
    case SerialTree(ts, _, _) =>
      OperandsKeepWays(t, ts);
      ThroughAlike(NormalizeAll(ts), ts, w);
      JoinedSpines(NormalizeAll(ts), w);
    case ParallelTree(ts, _) =>
      OperandsKeepWays(t, ts);
      JoinedBranches(NormalizeAll(ts), w);
      assert IsBranchWay(NormalizeAll(ts), w) <==> IsBranchWay(ts, w);
      assert IsWay(t, w) <==> IsBranchWay(ts, w);
  }

  lemma {:induction false} OperandsKeepWays(t: Tree, ts: seq<Tree>)
    requires Shaped(t) && (t.SerialTree? || t.ParallelTree?) && ts == t.children
    ensures forall k, v :: 0 <= k < |ts| ==> (IsWay(NormalizeAll(ts)[k], v) <==> IsWay(ts[k], v))
    decreases t, 0
  {
    forall k, v | 0 <= k < |ts| ensures IsWay(NormalizeAll(ts)[k], v) <==> IsWay(ts[k], v) {
      FlatteningKeepsWays(ts[k], v);
    }
  }
}
