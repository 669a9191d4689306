/** The flat, index-based Morphism arena, its tree meaning, and what every
    append keeps. */
module MorphismArena {
  import opened Common
  import opened MorphismTree

  datatype Kind = Atomic | Opaque | Wait | Instantiate | DefinitionRef | Serial | Parallel | Loop | SyncPhi

  datatype Payload =
    | WaitPayload(duration: ValueId, semantics: WaitSemantics)
    | AtomicPayload(operation: nat, argumentStart: nat, argumentCount: nat)
    | OpaquePayload(duration: ValueId, callStart: nat, callCount: nat, metadata: ValueId)
    | InstantiatePayload(template: nat, channel: nat)
    | DefinitionPayload(definition: nat, argumentStart: nat, argumentCount: nat)
    | LoopPayload(count: ValueId)

  datatype Node = Node(
    kind: Kind,
    edgeStart: nat,
    edgeCount: nat,
    boundaryStart: nat,
    payload: Option<nat>,
    provenance: nat)

  /** Every table of the builder; `templates` holds the template roots. */
  datatype Arena = Arena(
    nodes: seq<Node>,
    edges: seq<nat>,
    boundaries: seq<BoundaryPolicy>,
    payloads: seq<Payload>,
    arguments: seq<ValueId>,
    calls: seq<BoardCall>,
    templates: seq<nat>,
    definitions: seq<string>,
    operations: seq<string>,
    channels: seq<string>)

  const EMPTY := Arena([], [], [], [], [], [], [], [], [], [])

  /** Every id in the list refers to one of the first `n` nodes. */
  predicate Below(ids: seq<nat>, n: nat) {
    forall k :: 0 <= k < |ids| ==> ids[k] < n
  }

  /** No id in the list refers to a node of the given kind. */
  predicate NoneOfKind(a: Arena, ids: seq<nat>, kind: Kind)
    requires Below(ids, |a.nodes|)
  {
    forall k :: 0 <= k < |ids| ==> a.nodes[ids[k]].kind != kind
  }

  predicate EdgesInRange(a: Arena, i: nat)
    requires i < |a.nodes|
  {
    a.nodes[i].edgeStart + a.nodes[i].edgeCount <= |a.edges|
  }

  function Children(a: Arena, i: nat): (children: seq<nat>)
    requires i < |a.nodes| && EdgesInRange(a, i)
    ensures |children| == a.nodes[i].edgeCount
  {
    a.edges[a.nodes[i].edgeStart..a.nodes[i].edgeStart + a.nodes[i].edgeCount]
  }

  predicate BoundariesInRange(a: Arena, i: nat)
    requires i < |a.nodes|
  {
    var n := a.nodes[i];
    n.kind == Serial ==> n.edgeCount >= 1 && n.boundaryStart + n.edgeCount - 1 <= |a.boundaries|
  }

  function Boundaries(a: Arena, i: nat): (boundaries: seq<BoundaryPolicy>)
    requires i < |a.nodes| && BoundariesInRange(a, i)
    ensures a.nodes[i].kind == Serial ==> |boundaries| == a.nodes[i].edgeCount - 1
  {
    var n := a.nodes[i];
    if n.kind == Serial then a.boundaries[n.boundaryStart..n.boundaryStart + n.edgeCount - 1] else []
  }

  function KindOf(payload: Payload): Kind {
    match payload
    case WaitPayload(_, _) => Wait
    case AtomicPayload(_, _, _) => Atomic
    case OpaquePayload(_, _, _, _) => Opaque
    case InstantiatePayload(_, _) => Instantiate
    case DefinitionPayload(_, _, _) => DefinitionRef
    case LoopPayload(_) => Loop
  }

  /** Every index in a payload is in range; a template instantiated by node `i` has its root before `i`. */
  predicate PayloadInRange(a: Arena, payload: Payload, i: nat) {
    match payload
    case WaitPayload(_, _) => true
    case AtomicPayload(operation, start, count) => operation < |a.operations| && start + count <= |a.arguments|
    case OpaquePayload(_, start, count, _) => start + count <= |a.calls|
    case InstantiatePayload(template, channel) =>
      channel < |a.channels| && template < |a.templates| && a.templates[template] < i
    case DefinitionPayload(definition, start, count) => definition < |a.definitions| && start + count <= |a.arguments|
    case LoopPayload(_) => true
  }

  predicate PayloadOk(a: Arena, i: nat)
    requires i < |a.nodes|
  {
    var n := a.nodes[i];
    match n.payload
    case None => n.kind in {Serial, Parallel, SyncPhi}
    case Some(p) => p < |a.payloads| && KindOf(a.payloads[p]) == n.kind && PayloadInRange(a, a.payloads[p], i)
  }

  /** What a builder guarantees of each node: edges point backwards, compositions
      have enough children, and no composition sits directly under its own kind. */
  predicate NodeOk(a: Arena, i: nat)
    requires i < |a.nodes|
  {
    var n := a.nodes[i];
    && EdgesInRange(a, i)
    && Below(Children(a, i), i)
    && PayloadOk(a, i)
    && match n.kind
       case Serial => n.edgeCount >= 2 && BoundariesInRange(a, i) && NoneOfKind(a, Children(a, i), Serial)
       case Parallel => n.edgeCount >= 2 && NoneOfKind(a, Children(a, i), Parallel)
       case Loop => n.edgeCount == 1
       case _ => n.edgeCount == 0
  }

  ghost predicate WellFormed(a: Arena) {
    && (forall i :: 0 <= i < |a.nodes| ==> NodeOk(a, i))
    && (forall t :: 0 <= t < |a.templates| ==> a.templates[t] < |a.nodes|)
  }

  /** A node with its payload resolved through the tables. */
  datatype View =
    | LeafView(leaf: Leaf)
    | InstanceView(channel: string, root: nat)
    | SerialView(boundaries: seq<BoundaryPolicy>)
    | ParallelView
    | LoopView(count: ValueId)

  function Resolve(a: Arena, payload: Payload, i: nat): View
    requires PayloadInRange(a, payload, i)
  {
    match payload
    case WaitPayload(duration, semantics) => LeafView(WaitLeaf(duration, semantics))
    case AtomicPayload(operation, start, count) =>
      LeafView(AtomicLeaf(a.operations[operation], a.arguments[start..start + count]))
    case OpaquePayload(duration, start, count, metadata) =>
      LeafView(OpaqueLeaf(duration, a.calls[start..start + count], metadata))
    case DefinitionPayload(definition, start, count) =>
      LeafView(DefinitionLeaf(a.definitions[definition], a.arguments[start..start + count]))
    case InstantiatePayload(template, channel) => InstanceView(a.channels[channel], a.templates[template])
    case LoopPayload(count) => LoopView(count)
  }

  function ViewOf(a: Arena, i: nat): (v: View)
    requires i < |a.nodes| && NodeOk(a, i)
    ensures v.SerialView? <==> a.nodes[i].kind == Serial
    ensures v.ParallelView? <==> a.nodes[i].kind == Parallel
    ensures v.LoopView? <==> a.nodes[i].kind == Loop
    ensures v.InstanceView? <==> a.nodes[i].kind == Instantiate
    ensures v.InstanceView? ==> v.root < i && v.root in a.templates
    ensures v.SerialView? ==> |v.boundaries| == |Children(a, i)| - 1
  {
    var n := a.nodes[i];
    match n.payload
    case Some(p) => Resolve(a, a.payloads[p], i)
    case None =>
      if n.kind == Serial then SerialView(Boundaries(a, i))
      else if n.kind == Parallel then ParallelView
      else LeafView(SyncPhiLeaf)
  }

  /** The tree a node stands for. */
  ghost function Unfold(a: Arena, i: nat): Tree
    requires WellFormed(a) && i < |a.nodes|
    decreases i, 1
  {
    assert NodeOk(a, i);
    var provenance := a.nodes[i].provenance;
    match ViewOf(a, i)
    case LeafView(leaf) => LeafTree(leaf, provenance)
    case InstanceView(channel, root) => InstanceTree(channel, Unfold(a, root), provenance)
    case SerialView(boundaries) => SerialTree(UnfoldChildren(a, i), boundaries, provenance)
    case ParallelView => ParallelTree(UnfoldChildren(a, i), provenance)
    case LoopView(count) => LoopTree(Unfold(a, Children(a, i)[0]), count, provenance)
  }

  ghost function UnfoldChildren(a: Arena, i: nat): (ts: seq<Tree>)
    requires WellFormed(a) && i < |a.nodes| && NodeOk(a, i)
    ensures |ts| == |Children(a, i)|
    ensures forall k :: 0 <= k < |ts| ==> ts[k] == Unfold(a, Children(a, i)[k])
    decreases i, 0
  {
    var ids := Children(a, i);
    seq(|ids|, k requires 0 <= k < |ids| => Unfold(a, ids[k]))
  }

  ghost function UnfoldAll(a: Arena, ids: seq<nat>): (ts: seq<Tree>)
    requires WellFormed(a) && Below(ids, |a.nodes|)
    ensures |ts| == |ids| && forall k :: 0 <= k < |ids| ==> ts[k] == Unfold(a, ids[k])
  {
    seq(|ids|, k requires 0 <= k < |ids| => Unfold(a, ids[k]))
  }

  /** Every unfolded tree is well shaped and flat. */
  lemma {:induction false} UnfoldIsFlat(a: Arena, i: nat)
    requires WellFormed(a) && i < |a.nodes|
    ensures Shaped(Unfold(a, i)) && Flat(Unfold(a, i))
    ensures Unfold(a, i).SerialTree? <==> a.nodes[i].kind == Serial
    ensures Unfold(a, i).ParallelTree? <==> a.nodes[i].kind == Parallel
    decreases i
  {
    assert NodeOk(a, i);
    var children := Children(a, i);
    forall k | 0 <= k < |children|
      ensures Shaped(Unfold(a, children[k])) && Flat(Unfold(a, children[k]))
      ensures Unfold(a, children[k]).SerialTree? <==> a.nodes[children[k]].kind == Serial
      ensures Unfold(a, children[k]).ParallelTree? <==> a.nodes[children[k]].kind == Parallel
    {
      UnfoldIsFlat(a, children[k]);
    }
    match ViewOf(a, i)
    case LeafView(_) =>
    case InstanceView(_, root) => UnfoldIsFlat(a, root);
    case SerialView(_) => assert forall c | c in UnfoldChildren(a, i) :: Shaped(c) && Flat(c) && !c.SerialTree?;
    case ParallelView => assert forall c | c in UnfoldChildren(a, i) :: Shaped(c) && Flat(c) && !c.ParallelTree?;
    case LoopView(_) =>
  }

  // ---- appending keeps every earlier meaning

  /** `b` is `a` with entries appended to its tables. */
  predicate Extends(a: Arena, b: Arena) {
    && a.nodes <= b.nodes
    && a.edges <= b.edges
    && a.boundaries <= b.boundaries
    && a.payloads <= b.payloads
    && a.arguments <= b.arguments
    && a.calls <= b.calls
    && a.templates <= b.templates
    && a.definitions <= b.definitions
    && a.operations <= b.operations
    && a.channels <= b.channels
  }

  lemma ExtendsIsTransitive(a: Arena, b: Arena, c: Arena)
    requires Extends(a, b) && Extends(b, c)
    ensures Extends(a, c)
  {
  }

  lemma PrefixSlice<T>(xs: seq<T>, ys: seq<T>, start: nat, count: nat)
    requires xs <= ys && start + count <= |xs|
    ensures xs[start..start + count] == ys[start..start + count]
  {
  }

  lemma ExtendedNode(a: Arena, b: Arena, i: nat)
    requires Extends(a, b) && i < |a.nodes| && NodeOk(a, i)
    ensures NodeOk(b, i) && Children(b, i) == Children(a, i) && ViewOf(b, i) == ViewOf(a, i)
  {
    assert Children(b, i) == Children(a, i);
    match a.nodes[i].payload
    case None =>
      if a.nodes[i].kind == Serial {
        assert Boundaries(b, i) == Boundaries(a, i);
      }
    case Some(p) =>
      match a.payloads[p]
      case AtomicPayload(_, start, count) => PrefixSlice(a.arguments, b.arguments, start, count);
      case DefinitionPayload(_, start, count) => PrefixSlice(a.arguments, b.arguments, start, count);
      case OpaquePayload(_, start, count, _) => PrefixSlice(a.calls, b.calls, start, count);
      case _ =>
  }

  lemma {:induction false} UnfoldStable(a: Arena, b: Arena, i: nat)
    requires WellFormed(a) && WellFormed(b) && Extends(a, b) && i < |a.nodes|
    ensures Unfold(b, i) == Unfold(a, i)
    decreases i
  {
    assert NodeOk(a, i);
    ExtendedNode(a, b, i);
    var children := Children(a, i);
    forall k | 0 <= k < |children| ensures Unfold(b, children[k]) == Unfold(a, children[k]) {
      UnfoldStable(a, b, children[k]);
    }
    assert UnfoldChildren(b, i) == UnfoldChildren(a, i);
    if ViewOf(a, i).InstanceView? {
      UnfoldStable(a, b, ViewOf(a, i).root);
    }
  }

  lemma UnfoldAllStable(a: Arena, b: Arena, ids: seq<nat>)
    requires WellFormed(a) && WellFormed(b) && Extends(a, b) && Below(ids, |a.nodes|)
    ensures UnfoldAll(b, ids) == UnfoldAll(a, ids)
  {
    forall k | 0 <= k < |ids| ensures Unfold(b, ids[k]) == Unfold(a, ids[k]) {
      UnfoldStable(a, b, ids[k]);
    }
  }

  /** Tables grown without touching nodes or templates. */
  lemma GrownTablesStayWellFormed(a: Arena, b: Arena)
    requires WellFormed(a) && Extends(a, b) && b.nodes == a.nodes
    requires forall t :: |a.templates| <= t < |b.templates| ==> b.templates[t] < |a.nodes|
    ensures WellFormed(b)
  {
    forall i | 0 <= i < |b.nodes| ensures NodeOk(b, i) {
      assert NodeOk(a, i);
      ExtendedNode(a, b, i);
    }
  }

  lemma GrownNodeStaysWellFormed(a: Arena, b: Arena)
    requires WellFormed(a) && Extends(a, b) && |b.nodes| == |a.nodes| + 1 && b.templates == a.templates
    requires NodeOk(b, |a.nodes|)
    ensures WellFormed(b)
  {
    forall i | 0 <= i < |b.nodes| ensures NodeOk(b, i) {
      if i < |a.nodes| {
        assert NodeOk(a, i);
        ExtendedNode(a, b, i);
      }
    }
  }

  // ---- flattening on node ids

  /** The ids contributed to a composition of the given kind. */
  ghost function FlatIds(a: Arena, kind: Kind, ids: seq<nat>): seq<nat>
    requires WellFormed(a) && Below(ids, |a.nodes|)
  {
    if ids == [] then []
    else
      var last := |ids| - 1;
      assert NodeOk(a, ids[last]);
      FlatIds(a, kind, ids[..last]) + if a.nodes[ids[last]].kind == kind then Children(a, ids[last]) else [ids[last]]
  }

  /** Pieces of boundaries, with one separator between each pair of neighbours. */
  function Glue(pieces: seq<seq<BoundaryPolicy>>, separators: seq<BoundaryPolicy>): seq<BoundaryPolicy>
    requires |separators| == |pieces| - 1
  {
    var last := |pieces| - 1;
    if last == 0 then pieces[0]
    else Glue(pieces[..last], separators[..last - 1]) + [separators[last - 1]] + pieces[last]
  }

  ghost function BoundaryPieces(a: Arena, ids: seq<nat>): (pieces: seq<seq<BoundaryPolicy>>)
    requires WellFormed(a) && Below(ids, |a.nodes|)
    ensures |pieces| == |ids|
  {
    seq(|ids|, k requires 0 <= k < |ids| => assert NodeOk(a, ids[k]); Boundaries(a, ids[k]))
  }

  /** The boundaries that go with `FlatIds(a, Serial, ids)`. */
  ghost function FlatBoundaries(a: Arena, ids: seq<nat>, bs: seq<BoundaryPolicy>): seq<BoundaryPolicy>
    requires WellFormed(a) && Below(ids, |a.nodes|) && |bs| == |ids| - 1
  {
    Glue(BoundaryPieces(a, ids), bs)
  }

  lemma {:induction false} FlatIdsShape(a: Arena, kind: Kind, ids: seq<nat>)
    requires WellFormed(a) && Below(ids, |a.nodes|) && kind in {Serial, Parallel}
    ensures Below(FlatIds(a, kind, ids), |a.nodes|) && NoneOfKind(a, FlatIds(a, kind, ids), kind)
    ensures |FlatIds(a, kind, ids)| >= |ids|
  {
    if ids != [] {
      assert NodeOk(a, ids[|ids| - 1]);
      FlatIdsShape(a, kind, ids[..|ids| - 1]);
    }
  }

  lemma UnfoldAllAppend(a: Arena, xs: seq<nat>, ys: seq<nat>)
    requires WellFormed(a) && Below(xs, |a.nodes|) && Below(ys, |a.nodes|)
    ensures UnfoldAll(a, xs + ys) == UnfoldAll(a, xs) + UnfoldAll(a, ys)
  {
  }

  lemma {:induction false} FlatSerialMeaning(a: Arena, ids: seq<nat>)
    requires WellFormed(a) && Below(ids, |a.nodes|) && Below(FlatIds(a, Serial, ids), |a.nodes|)
    ensures UnfoldAll(a, FlatIds(a, Serial, ids)) == JoinSpines(UnfoldAll(a, ids))
  {
    if ids != [] {
      var last := |ids| - 1;
      var id := ids[last];
      assert NodeOk(a, id);
      FlatIdsShape(a, Serial, ids[..last]);
      FlatSerialMeaning(a, ids[..last]);
      UnfoldIsFlat(a, id);
      var ts := UnfoldAll(a, ids);
      assert ts[..last] == UnfoldAll(a, ids[..last]);
      var tail := if a.nodes[id].kind == Serial then Children(a, id) else [id];
      assert Spine(ts[last]) == UnfoldAll(a, tail);
      UnfoldAllAppend(a, FlatIds(a, Serial, ids[..last]), tail);
    }
  }

  lemma {:induction false} FlatParallelMeaning(a: Arena, ids: seq<nat>)
    requires WellFormed(a) && Below(ids, |a.nodes|) && Below(FlatIds(a, Parallel, ids), |a.nodes|)
    ensures UnfoldAll(a, FlatIds(a, Parallel, ids)) == JoinBranches(UnfoldAll(a, ids))
  {
    if ids != [] {
      var last := |ids| - 1;
      var id := ids[last];
      assert NodeOk(a, id);
      FlatIdsShape(a, Parallel, ids[..last]);
      FlatParallelMeaning(a, ids[..last]);
      UnfoldIsFlat(a, id);
      var ts := UnfoldAll(a, ids);
      assert ts[..last] == UnfoldAll(a, ids[..last]);
      var tail := if a.nodes[id].kind == Parallel then Children(a, id) else [id];
      assert Branches(ts[last]) == UnfoldAll(a, tail);
      UnfoldAllAppend(a, FlatIds(a, Parallel, ids[..last]), tail);
    }
  }

  lemma {:induction false} FlatBoundariesMeaning(a: Arena, ids: seq<nat>, bs: seq<BoundaryPolicy>)
    requires WellFormed(a) && Below(ids, |a.nodes|) && |bs| == |ids| - 1
    ensures FlatBoundaries(a, ids, bs) == JoinSeams(UnfoldAll(a, ids), bs)
    ensures |FlatBoundaries(a, ids, bs)| == |FlatIds(a, Serial, ids)| - 1
  {
    var last := |ids| - 1;
    var id := ids[last];
    assert NodeOk(a, id);
    UnfoldIsFlat(a, id);
    var ts := UnfoldAll(a, ids);
    assert ts[..last] == UnfoldAll(a, ids[..last]);
    assert Seams(ts[last]) == Boundaries(a, id);
    assert BoundaryPieces(a, ids)[..last] == BoundaryPieces(a, ids[..last]);
    if last == 0 {
      assert FlatIds(a, Serial, ids[..0]) == [];
    } else {
      FlatBoundariesMeaning(a, ids[..last], bs[..last - 1]);
    }
  }

  lemma FlatIdsPush(a: Arena, kind: Kind, xs: seq<nat>, x: nat)
    requires WellFormed(a) && Below(xs, |a.nodes|) && x < |a.nodes|
    ensures NodeOk(a, x) && Below(xs + [x], |a.nodes|)
    ensures FlatIds(a, kind, xs + [x]) == FlatIds(a, kind, xs) + if a.nodes[x].kind == kind then Children(a, x) else [x]
  {
    assert NodeOk(a, x);
    assert (xs + [x])[..|xs|] == xs;
  }

  lemma {:induction false} FlatIdsAppend(a: Arena, kind: Kind, xs: seq<nat>, ys: seq<nat>)
    requires WellFormed(a) && Below(xs, |a.nodes|) && Below(ys, |a.nodes|)
    ensures FlatIds(a, kind, xs + ys) == FlatIds(a, kind, xs) + FlatIds(a, kind, ys)
    decreases |ys|
  {
    if ys == [] {
      assert xs + ys == xs;
    } else {
      var init, y := ys[..|ys| - 1], ys[|ys| - 1];
      LastApart(xs, ys);
      FlatIdsAppend(a, kind, xs, init);
      FlatIdsPush(a, kind, xs + init, y);
      FlatIdsPush(a, kind, init, y);
      Regrouped(FlatIds(a, kind, xs), FlatIds(a, kind, init), if a.nodes[y].kind == kind then Children(a, y) else [y]);
    }
  }

  lemma Regrouped(us: seq<nat>, vs: seq<nat>, ws: seq<nat>)
    ensures (us + vs) + ws == us + (vs + ws)
  {
  }

  lemma LastApart<T>(xs: seq<T>, ys: seq<T>)
    requires ys != []
    ensures ys == ys[..|ys| - 1] + [ys[|ys| - 1]] && xs + ys == (xs + ys[..|ys| - 1]) + [ys[|ys| - 1]]
  {
  }

  lemma GluePush(ps: seq<seq<BoundaryPolicy>>, bs: seq<BoundaryPolicy>, b: BoundaryPolicy, q: seq<BoundaryPolicy>)
    requires |bs| == |ps| - 1
    ensures Glue(ps + [q], bs + [b]) == Glue(ps, bs) + [b] + q
  {
    assert (ps + [q])[..|ps|] == ps;
    assert (bs + [b])[..|bs|] == bs;
  }

  lemma {:induction false} GlueAppend(
    ps: seq<seq<BoundaryPolicy>>, bs: seq<BoundaryPolicy>, b: BoundaryPolicy,
    qs: seq<seq<BoundaryPolicy>>, cs: seq<BoundaryPolicy>)
    requires |bs| == |ps| - 1 && |cs| == |qs| - 1
    ensures Glue(ps + qs, bs + [b] + cs) == Glue(ps, bs) + [b] + Glue(qs, cs)
    decreases |qs|
  {
    var init, q := qs[..|qs| - 1], qs[|qs| - 1];
    LastApart(ps, qs);
    if init == [] {
      assert ps + init == ps && bs + [b] + cs == bs + [b];
      GluePush(ps, bs, b, q);
    } else {
      var d := cs[|cs| - 1];
      LastApart(bs + [b], cs);
      GlueAppend(ps, bs, b, init, cs[..|cs| - 1]);
      GluePush(ps + init, bs + [b] + cs[..|cs| - 1], d, q);
      GluePush(init, cs[..|cs| - 1], d, q);
    }
  }

  // The splits are lemmas of their own: an equality of sequences asserted beside
  // a recursive function over them is slow.
  lemma SplitLast(bs: seq<BoundaryPolicy>, cs: seq<BoundaryPolicy>)
    requires bs != []
    ensures bs + cs == bs[..|bs| - 1] + [bs[|bs| - 1]] + cs
  {
  }

  lemma SplitFirst(bs: seq<BoundaryPolicy>, cs: seq<BoundaryPolicy>)
    requires cs != []
    ensures bs + cs == bs + [cs[0]] + cs[1..]
  {
  }

  lemma GlueAfter(before: seq<seq<BoundaryPolicy>>, bs: seq<BoundaryPolicy>,
                  xs: seq<seq<BoundaryPolicy>>, cs: seq<BoundaryPolicy>, ys: seq<seq<BoundaryPolicy>>,
                    ds: seq<BoundaryPolicy>)
    requires |bs| == |before| && |cs| == |xs| - 1 && |ds| == |ys| - 1 && Glue(xs, cs) == Glue(ys, ds)
    ensures Glue(before + xs, bs + cs) == Glue(before + ys, bs + ds)
  {
    if before == [] {
      assert before + xs == xs && bs + cs == cs;
      assert before + ys == ys && bs + ds == ds;
    } else {
      GlueAfterSome(before, bs, xs, cs, ys, ds);
    }
  }

  lemma GlueAfterSome(before: seq<seq<BoundaryPolicy>>, bs: seq<BoundaryPolicy>,
                      xs: seq<seq<BoundaryPolicy>>, cs: seq<BoundaryPolicy>, ys: seq<seq<BoundaryPolicy>>,
                        ds: seq<BoundaryPolicy>)
    requires before != [] && |bs| == |before| && |cs| == |xs| - 1 && |ds| == |ys| - 1 && Glue(xs, cs) == Glue(ys, ds)
    ensures Glue(before + xs, bs + cs) == Glue(before + ys, bs + ds)
  {
    SplitLast(bs, cs);
    SplitLast(bs, ds);
    GlueAppend(before, bs[..|bs| - 1], bs[|bs| - 1], xs, cs);
    GlueAppend(before, bs[..|bs| - 1], bs[|bs| - 1], ys, ds);
  }

  lemma GlueBefore(xs: seq<seq<BoundaryPolicy>>, cs: seq<BoundaryPolicy>, ys: seq<seq<BoundaryPolicy>>,
      ds: seq<BoundaryPolicy>,
                   after: seq<seq<BoundaryPolicy>>, b: BoundaryPolicy, rest: seq<BoundaryPolicy>)
    requires |rest| == |after| - 1 && |cs| == |xs| - 1 && |ds| == |ys| - 1 && Glue(xs, cs) == Glue(ys, ds)
    ensures Glue(xs + after, cs + [b] + rest) == Glue(ys + after, ds + [b] + rest)
  {
    GlueAppend(xs, cs, b, after, rest);
    GlueAppend(ys, ds, b, after, rest);
  }

  /** Only the glued middle matters. */
  lemma GlueMiddle(before: seq<seq<BoundaryPolicy>>, bs: seq<BoundaryPolicy>,
                   xs: seq<seq<BoundaryPolicy>>, cs: seq<BoundaryPolicy>, ys: seq<seq<BoundaryPolicy>>,
                     ds: seq<BoundaryPolicy>,
                   after: seq<seq<BoundaryPolicy>>, es: seq<BoundaryPolicy>)
    requires |bs| == |before| && |cs| == |xs| - 1 && |ds| == |ys| - 1 && |es| == |after| && Glue(xs, cs) == Glue(ys, ds)
    ensures Glue(before + xs + after, bs + cs + es) == Glue(before + ys + after, bs + ds + es)
  {
    GlueAfter(before, bs, xs, cs, ys, ds);
    if after == [] {
      assert before + xs + after == before + xs && bs + cs + es == bs + cs;
      assert before + ys + after == before + ys && bs + ds + es == bs + ds;
    } else {
      SplitFirst(bs + cs, es);
      SplitFirst(bs + ds, es);
      GlueBefore(before + xs, bs + cs, before + ys, bs + ds, after, es[0], es[1..]);
    }
  }

  lemma PiecesAppend(a: Arena, xs: seq<nat>, ys: seq<nat>, zs: seq<nat>)
    requires WellFormed(a) && Below(xs, |a.nodes|) && Below(ys, |a.nodes|) && Below(zs, |a.nodes|)
    ensures BoundaryPieces(a, xs + ys + zs) == BoundaryPieces(a, xs) + BoundaryPieces(a, ys) + BoundaryPieces(a, zs)
  {
  }

  /** Associativity on ids.  If `s` is the node that composing `inner` gave, composing
      `before + [s] + after` gives exactly the children and boundaries that composing
      `before + inner + after` in one go would give. */
  lemma InlineNestedSerial(
    a: Arena, s: nat,
    before: seq<nat>, beforeBounds: seq<BoundaryPolicy>,
    inner: seq<nat>, innerBounds: seq<BoundaryPolicy>,
    after: seq<nat>, afterBounds: seq<BoundaryPolicy>)
    requires WellFormed(a) && s < |a.nodes| && a.nodes[s].kind == Serial
    requires Below(before, |a.nodes|) && Below(inner, |a.nodes|) && Below(after, |a.nodes|)
    requires |beforeBounds| == |before| && |innerBounds| == |inner| - 1 && |afterBounds| == |after|
    requires NodeOk(a, s) && Children(a, s) == FlatIds(a, Serial, inner)
    requires Boundaries(a, s) == FlatBoundaries(a, inner, innerBounds)
    ensures FlatIds(a, Serial, before + [s] + after) == FlatIds(a, Serial, before + inner + after)
    ensures FlatBoundaries(a, before + [s] + after, beforeBounds + afterBounds)
         == FlatBoundaries(a, before + inner + after, beforeBounds + innerBounds + afterBounds)
  {
    FlatIdsOfNode(a, Serial, s);
    InlineIds(a, Serial, before, [s], inner, after);
    PiecesAppend(a, before, [s], after);
    PiecesAppend(a, before, inner, after);
    InlineBoundaries(a, s, before, beforeBounds, inner, innerBounds, after, afterBounds);
  }

  lemma InlineBoundaries(
    a: Arena, s: nat, before: seq<nat>, beforeBounds: seq<BoundaryPolicy>,
    inner: seq<nat>, innerBounds: seq<BoundaryPolicy>, after: seq<nat>, afterBounds: seq<BoundaryPolicy>)
    requires WellFormed(a) && s < |a.nodes| && Below(before, |a.nodes|) && Below(inner, |a.nodes|)
    requires Below(after, |a.nodes|)
    requires |beforeBounds| == |before| && |innerBounds| == |inner| - 1 && |afterBounds| == |after|
    requires NodeOk(a, s) && Boundaries(a, s) == Glue(BoundaryPieces(a, inner), innerBounds)
    ensures Glue(BoundaryPieces(a, before) + BoundaryPieces(a, [s]) + BoundaryPieces(a, after),
      beforeBounds + afterBounds)
         == Glue(BoundaryPieces(a, before) + BoundaryPieces(a, inner) + BoundaryPieces(a, after),
           beforeBounds + innerBounds + afterBounds)
  {
    GlueOfNode(a, s);
    NothingBetween(beforeBounds, afterBounds);
    GlueMiddle(BoundaryPieces(a, before), beforeBounds, BoundaryPieces(a, [s]), [], BoundaryPieces(a, inner),
      innerBounds,
               BoundaryPieces(a, after), afterBounds);
  }

  lemma GlueOfNode(a: Arena, s: nat)
    requires WellFormed(a) && s < |a.nodes| && NodeOk(a, s)
    ensures Glue(BoundaryPieces(a, [s]), []) == Boundaries(a, s)
  {
  }

  lemma NothingBetween(xs: seq<BoundaryPolicy>, ys: seq<BoundaryPolicy>)
    ensures xs + [] + ys == xs + ys
  {
  }

  lemma FlatIdsOfNode(a: Arena, kind: Kind, s: nat)
    requires WellFormed(a) && s < |a.nodes| && a.nodes[s].kind == kind && NodeOk(a, s)
    ensures FlatIds(a, kind, [s]) == Children(a, s)
  {
    assert [s][..0] == [];
    assert FlatIds(a, kind, [s]) == FlatIds(a, kind, [s][..0]) + Children(a, s);
  }

  lemma InlineIds(a: Arena, kind: Kind, before: seq<nat>, xs: seq<nat>, ys: seq<nat>, after: seq<nat>)
    requires WellFormed(a) && Below(before, |a.nodes|) && Below(xs, |a.nodes|) && Below(ys, |a.nodes|)
    requires Below(after, |a.nodes|)
    requires FlatIds(a, kind, xs) == FlatIds(a, kind, ys)
    ensures FlatIds(a, kind, before + xs + after) == FlatIds(a, kind, before + ys + after)
  {
    FlatIdsAppend(a, kind, before, xs);
    FlatIdsAppend(a, kind, before, ys);
    FlatIdsAppend(a, kind, before + xs, after);
    FlatIdsAppend(a, kind, before + ys, after);
  }

  /** The same law for Parallel. */
  lemma InlineNestedParallel(a: Arena, s: nat, before: seq<nat>, inner: seq<nat>, after: seq<nat>)
    requires WellFormed(a) && s < |a.nodes| && a.nodes[s].kind == Parallel
    requires Below(before, |a.nodes|) && Below(inner, |a.nodes|) && Below(after, |a.nodes|)
    requires NodeOk(a, s) && Children(a, s) == FlatIds(a, Parallel, inner)
    ensures FlatIds(a, Parallel, before + [s] + after) == FlatIds(a, Parallel, before + inner + after)
  {
    FlatIdsOfNode(a, Parallel, s);
    InlineIds(a, Parallel, before, [s], inner, after);
  }
}
