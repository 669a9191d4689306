/** Closing an arena: drop what no root reaches, renumber the rest, validate the result. */
module MorphismCollection {
  import opened Common
  import opened MorphismTree
  import opened MorphismArena

  datatype Program = Program(root: nat, arena: Arena)

  /** Collection starts from the root and from every published template. */
  function Roots(a: Arena, root: nat): seq<nat> {
    [root] + a.templates
  }

  predicate Edge(a: Arena, p: nat, i: nat) {
    p < |a.nodes| && EdgesInRange(a, p) && i in Children(a, p)
  }

  /** `i` is reached from a root in `n` edges. */
  ghost predicate ReachedIn(a: Arena, roots: seq<nat>, i: nat, n: nat)
    decreases n
  {
    i < |a.nodes| &&
    if n == 0 then i in roots
    else exists p: nat :: Edge(a, p, i) && ReachedIn(a, roots, p, n - 1)
  }

  ghost predicate Reachable(a: Arena, roots: seq<nat>, i: nat) {
    exists n: nat :: ReachedIn(a, roots, i, n)
  }

  lemma ReachedFrom(a: Arena, roots: seq<nat>, i: nat, n: nat) returns (p: nat)
    requires n > 0 && ReachedIn(a, roots, i, n)
    ensures Edge(a, p, i) && ReachedIn(a, roots, p, n - 1)
  {
    p :| Edge(a, p, i) && ReachedIn(a, roots, p, n - 1);
  }

  lemma ReachableRoot(a: Arena, roots: seq<nat>, i: nat)
    requires i in roots && i < |a.nodes|
    ensures Reachable(a, roots, i)
  {
    assert ReachedIn(a, roots, i, 0);
  }

  lemma ReachableChild(a: Arena, roots: seq<nat>, p: nat, i: nat)
    requires Reachable(a, roots, p) && Edge(a, p, i) && i < |a.nodes|
    ensures Reachable(a, roots, i)
  {
    var n: nat :| ReachedIn(a, roots, p, n);
    assert ReachedIn(a, roots, i, n + 1);
  }

  /** Every child of a marked node is marked or waits in the worklist. */
  ghost predicate ClosedUpTo(a: Arena, marks: seq<bool>, pending: seq<nat>) {
    forall p, k ::
      0 <= p < |marks| == |a.nodes| && marks[p] && EdgesInRange(a, p) && 0 <= k < |Children(a, p)| ==>
      Children(a, p)[k] < |marks| && (marks[Children(a, p)[k]] || Children(a, p)[k] in pending)
  }

  /** A marking that holds the roots and is closed under edges holds everything reachable. */
  lemma {:induction false} ClosedMarking(a: Arena, roots: seq<nat>, marks: seq<bool>, i: nat, n: nat)
    requires |marks| == |a.nodes| && ReachedIn(a, roots, i, n) && ClosedUpTo(a, marks, [])
    requires forall r: nat | r in roots :: r < |marks| && marks[r]
    ensures marks[i]
    decreases n
  {
    if n > 0 {
      var p := ReachedFrom(a, roots, i, n);
      ClosedMarking(a, roots, marks, p, n - 1);
      var k :| 0 <= k < |Children(a, p)| && Children(a, p)[k] == i;
    }
  }

  lemma MarkOne(a: Arena, marks: seq<bool>, pending: seq<nat>, node: nat)
    requires node < |marks| == |a.nodes| && NodeOk(a, node) && ClosedUpTo(a, marks, pending + [node])
    ensures marks[node] ==> ClosedUpTo(a, marks, pending)
    ensures ClosedUpTo(a, marks[node := true], pending + Children(a, node))
  {
  }

  ghost function Unmarked(marks: seq<bool>): set<nat> {
    set i: nat | i < |marks| && !marks[i]
  }

  lemma FewerUnmarked(marks: seq<bool>, node: nat)
    requires node < |marks| && !marks[node]
    ensures Unmarked(marks[node := true]) < Unmarked(marks)
  {
    assert node in Unmarked(marks) && node !in Unmarked(marks[node := true]);
  }

  lemma ChildrenReachable(a: Arena, roots: seq<nat>, node: nat)
    requires WellFormed(a) && node < |a.nodes| && Reachable(a, roots, node)
    ensures NodeOk(a, node) && forall c: nat | c in Children(a, node) :: c < |a.nodes| && Reachable(a, roots, c)
  {
    assert NodeOk(a, node);
    forall c: nat | c in Children(a, node) ensures c < |a.nodes| && Reachable(a, roots, c) {
      ReachableChild(a, roots, node, c);
    }
  }

  /** Worklist marking: exactly the reachable nodes end up marked. */
  method MarkReachable(a: Arena, root: nat) returns (marks: seq<bool>)
    requires WellFormed(a) && root < |a.nodes|
    ensures |marks| == |a.nodes|
    ensures forall i :: 0 <= i < |marks| ==> (marks[i] <==> Reachable(a, Roots(a, root), i))
    ensures KeepsReferences(a, marks)
  {
    ghost var roots := Roots(a, root);
    var reachable := new bool[|a.nodes|](_ => false);
    var pending := [root] + a.templates;
    forall x: nat | x in pending ensures x < |a.nodes| && Reachable(a, roots, x) {
      ReachableRoot(a, roots, x);
    }
    while pending != []
      invariant forall x: nat | x in pending :: x < |a.nodes| && Reachable(a, roots, x)
      invariant forall i :: 0 <= i < reachable.Length && reachable[i] ==> Reachable(a, roots, i)
      invariant forall r: nat | r in roots :: r < reachable.Length && (reachable[r] || r in pending)
      invariant ClosedUpTo(a, reachable[..], pending)
      decreases Unmarked(reachable[..]), |pending|
    {
      ghost var before := pending;
      var node := pending[|pending| - 1];
      assert node in pending;
      pending := pending[..|pending| - 1];
      assert before == pending + [node];
      assert NodeOk(a, node);
      MarkOne(a, reachable[..], pending, node);
      if reachable[node] {
        continue;
      }
      ghost var was := reachable[..];
      reachable[node] := true;
      assert reachable[..] == was[node := true];
      FewerUnmarked(was, node);
      assert Unmarked(reachable[..]) < Unmarked(was);
      ChildrenReachable(a, roots, node);
      pending := pending + Children(a, node);
    }
    marks := reachable[..];
    forall i: nat, n: nat | i < |marks| && ReachedIn(a, roots, i, n) ensures marks[i] {
      ClosedMarking(a, roots, marks, i, n);
    }
    forall t | 0 <= t < |a.templates| ensures marks[a.templates[t]] {
      assert a.templates[t] in roots;
    }
  }

  // ---- renumbering

  /** How many marked nodes come before `i`: the new index of a marked node. */
  function Rank(marks: seq<bool>, i: nat): nat
    requires i <= |marks|
  {
    if i == 0 then 0 else Rank(marks, i - 1) + if marks[i - 1] then 1 else 0
  }

  lemma {:induction false} RankIsMonotone(marks: seq<bool>, i: nat, j: nat)
    requires i < j <= |marks|
    ensures Rank(marks, i) <= Rank(marks, j)
    ensures marks[i] ==> Rank(marks, i) < Rank(marks, j)
    decreases j
  {
    if i < j - 1 {
      RankIsMonotone(marks, i, j - 1);
    }
  }

  /** Every new index comes from a marked old one. */
  lemma {:induction false} RankIsOnto(marks: seq<bool>, n: nat, j: nat) returns (i: nat)
    requires n <= |marks| && j < Rank(marks, n)
    ensures i < n && marks[i] && Rank(marks, i) == j
    decreases n
  {
    if marks[n - 1] && Rank(marks, n - 1) == j {
      i := n - 1;
    } else {
      i := RankIsOnto(marks, n - 1, j);
    }
  }

  ghost function RankAll(marks: seq<bool>, ids: seq<nat>): (rs: seq<nat>)
    requires forall k :: 0 <= k < |ids| ==> ids[k] < |marks|
    ensures |rs| == |ids| && forall k :: 0 <= k < |ids| ==> rs[k] == Rank(marks, ids[k])
  {
    seq(|ids|, k requires 0 <= k < |ids| => Rank(marks, ids[k]))
  }

  /** The marking keeps the roots and the children of what it keeps. */
  ghost predicate KeepsReferences(a: Arena, marks: seq<bool>) {
    && |marks| == |a.nodes|
    && (forall i, k :: 0 <= i < |marks| && marks[i] && EdgesInRange(a, i) && 0 <= k < |Children(a, i)| ==>
      Children(a, i)[k] < |marks| && marks[Children(a, i)[k]])
    && (forall t :: 0 <= t < |a.templates| ==> a.templates[t] < |marks| && marks[a.templates[t]])
  }

  /** Old node `i` sits in `b` at its rank, with renumbered children and its own boundaries. */
  ghost predicate Moved(a: Arena, b: Arena, marks: seq<bool>, i: nat)
    requires KeepsReferences(a, marks) && i < |a.nodes| && NodeOk(a, i) && marks[i]
  {
    var j := Rank(marks, i);
    && j < |b.nodes|
    && SameNode(a.nodes[i], b.nodes[j])
    && EdgesInRange(b, j) && Children(b, j) == RankAll(marks, Children(a, i))
    && (a.nodes[i].kind == Serial ==> BoundariesInRange(b, j) && Boundaries(b, j) == Boundaries(a, i))
  }

  /** Two nodes agree on everything but where their slices start. */
  predicate SameNode(m: Node, n: Node) {
    m.kind == n.kind && m.edgeCount == n.edgeCount && m.payload == n.payload && m.provenance == n.provenance
  }

  /** `b` is `a` restricted to the marked nodes and renumbered. */
  ghost predicate Renumbered(a: Arena, b: Arena, marks: seq<bool>)
    requires WellFormed(a) && KeepsReferences(a, marks)
  {
    && |b.nodes| == Rank(marks, |marks|)
    && (forall i :: 0 <= i < |marks| && marks[i] ==> NodeOk(a, i) && Moved(a, b, marks, i))
    && b.templates == RankAll(marks, a.templates)
    && b.payloads == a.payloads && b.arguments == a.arguments && b.calls == a.calls
    && b.definitions == a.definitions && b.operations == a.operations && b.channels == a.channels
  }

  lemma MovedNodeOk(a: Arena, b: Arena, marks: seq<bool>, i: nat)
    requires WellFormed(a) && KeepsReferences(a, marks) && Renumbered(a, b, marks) && i < |marks| && marks[i]
    ensures Rank(marks, i) < |b.nodes| && NodeOk(b, Rank(marks, i))
  {
    assert NodeOk(a, i) && Moved(a, b, marks, i);
    var j := Rank(marks, i);
    var old_, new_ := Children(a, i), Children(b, j);
    forall k | 0 <= k < |new_|
      ensures new_[k] < j && b.nodes[new_[k]].kind == a.nodes[old_[k]].kind
    {
      RankIsMonotone(marks, old_[k], i);
      assert Moved(a, b, marks, old_[k]);
    }
    if a.nodes[i].payload.Some? {
      var payload := a.payloads[a.nodes[i].payload.value];
      if payload.InstantiatePayload? {
        RankIsMonotone(marks, a.templates[payload.template], i);
      }
    }
  }

  lemma RenumberedIsWellFormed(a: Arena, b: Arena, marks: seq<bool>)
    requires WellFormed(a) && KeepsReferences(a, marks) && Renumbered(a, b, marks)
    ensures WellFormed(b)
  {
    forall j | 0 <= j < |b.nodes| ensures NodeOk(b, j) {
      var i := RankIsOnto(marks, |marks|, j);
      MovedNodeOk(a, b, marks, i);
    }
    forall t | 0 <= t < |b.templates| ensures b.templates[t] < |b.nodes| {
      RankIsMonotone(marks, a.templates[t], |marks|);
    }
  }

  /** Renumbering keeps the meaning of every node it keeps. */
  lemma {:induction false} RenumberedUnfold(a: Arena, b: Arena, marks: seq<bool>, i: nat)
    requires WellFormed(a) && KeepsReferences(a, marks) && Renumbered(a, b, marks) && WellFormed(b)
    requires i < |marks| && marks[i]
    ensures Rank(marks, i) < |b.nodes| && Unfold(b, Rank(marks, i)) == Unfold(a, i)
    decreases i
  {
    assert NodeOk(a, i) && Moved(a, b, marks, i);
    MovedNodeOk(a, b, marks, i);
    var j := Rank(marks, i);
    var children := Children(a, i);
    forall k | 0 <= k < |children| ensures Unfold(b, Children(b, j)[k]) == Unfold(a, children[k]) {
      RenumberedUnfold(a, b, marks, children[k]);
    }
    assert UnfoldChildren(b, j) == UnfoldChildren(a, i);
    if a.nodes[i].kind == Instantiate {
      RenumberedUnfold(a, b, marks, ViewOf(a, i).root);
    }
  }

  /** The marking is exactly reachability from the root and the templates. */
  ghost predicate MarksReachable(a: Arena, marks: seq<bool>, root: nat) {
    |marks| == |a.nodes| && forall i: nat :: i < |marks| ==> (marks[i] <==> Reachable(a, Roots(a, root), i))
  }

  lemma RenumberedEdge(a: Arena, b: Arena, marks: seq<bool>, p: nat, i: nat)
    requires WellFormed(a) && KeepsReferences(a, marks) && Renumbered(a, b, marks) && WellFormed(b)
    requires p < |marks| && marks[p] && Edge(a, p, i)
    ensures i < |marks| && marks[i] && Rank(marks, p) < |b.nodes| && Rank(marks, i) < |b.nodes|
    ensures Edge(b, Rank(marks, p), Rank(marks, i))
  {
    assert NodeOk(a, p) && Moved(a, b, marks, p);
    var k :| 0 <= k < |Children(a, p)| && Children(a, p)[k] == i;
    assert Children(b, Rank(marks, p))[k] == Rank(marks, i);
    MovedNodeOk(a, b, marks, i);
  }

  lemma RenumberedRoot(a: Arena, b: Arena, marks: seq<bool>, root: nat, i: nat)
    requires WellFormed(a) && KeepsReferences(a, marks) && Renumbered(a, b, marks) && WellFormed(b)
    requires root < |marks| && i < |marks| && marks[i] && i in Roots(a, root)
    ensures Reachable(b, Roots(b, Rank(marks, root)), Rank(marks, i))
  {
    MovedNodeOk(a, b, marks, i);
    if i != root {
      var t :| 0 <= t < |a.templates| && a.templates[t] == i;
      assert b.templates[t] == Rank(marks, i);
    }
    ReachableRoot(b, Roots(b, Rank(marks, root)), Rank(marks, i));
  }

  ghost predicate RootsMarked(a: Arena, marks: seq<bool>, root: nat) {
    forall r: nat | r in Roots(a, root) :: r < |marks| && marks[r]
  }

  lemma RootsAreMarked(a: Arena, marks: seq<bool>, root: nat)
    requires MarksReachable(a, marks, root) && forall r: nat | r in Roots(a, root) :: r < |a.nodes|
    ensures RootsMarked(a, marks, root)
  {
    forall r: nat | r in Roots(a, root)
      ensures r < |marks| && marks[r]
    {
      ReachableRoot(a, Roots(a, root), r);
    }
  }

  /** Every kept node is still reachable after renumbering. */
  lemma {:induction false} RenumberedReach(a: Arena, b: Arena, marks: seq<bool>, root: nat, i: nat, n: nat)
    requires WellFormed(a) && KeepsReferences(a, marks) && Renumbered(a, b, marks) && WellFormed(b)
    requires RootsMarked(a, marks, root) && root < |marks| && ReachedIn(a, Roots(a, root), i, n)
    ensures i < |marks| && marks[i] && Reachable(b, Roots(b, Rank(marks, root)), Rank(marks, i))
    decreases n
  {
    if n == 0 {
      RenumberedRoot(a, b, marks, root, i);
    } else {
      var p := ReachedFrom(a, Roots(a, root), i, n);
      RenumberedReach(a, b, marks, root, p, n - 1);
      RenumberedStep(a, b, marks, p, i, Roots(b, Rank(marks, root)));
    }
  }

  lemma RenumberedStep(a: Arena, b: Arena, marks: seq<bool>, p: nat, i: nat, roots: seq<nat>)
    requires WellFormed(a) && KeepsReferences(a, marks) && Renumbered(a, b, marks) && WellFormed(b)
    requires p < |marks| && marks[p] && Edge(a, p, i) && Reachable(b, roots, Rank(marks, p))
    ensures i < |marks| && marks[i] && Reachable(b, roots, Rank(marks, i))
  {
    RenumberedEdge(a, b, marks, p, i);
    ReachableChild(b, roots, Rank(marks, p), Rank(marks, i));
  }

  /** The kept nodes in order, and where each of them went. */
  method KeepNodes(a: Arena, marks: seq<bool>) returns (nodes: seq<Node>, table: seq<Option<nat>>)
    requires |marks| == |a.nodes|
    ensures |nodes| == Rank(marks, |marks|) && |table| == |marks|
    ensures forall k :: 0 <= k < |marks| && marks[k] ==>
      table[k] == Some(Rank(marks, k)) && Rank(marks, k) < |nodes| && nodes[Rank(marks, k)] == a.nodes[k]
  {
    var remap := new Option<nat>[|a.nodes|](_ => None);
    nodes := [];
    for i := 0 to |a.nodes|
      invariant |nodes| == Rank(marks, i)
      invariant forall k :: 0 <= k < i && marks[k] ==>
        remap[k] == Some(Rank(marks, k)) && Rank(marks, k) < |nodes| && nodes[Rank(marks, k)] == a.nodes[k]
    {
      if marks[i] {
        remap[i] := Some(|nodes|);
        nodes := nodes + [a.nodes[i]];
      }
    }
    table := remap[..];
  }

  ghost predicate TableOk(marks: seq<bool>, table: seq<Option<nat>>) {
    |table| == |marks| && forall k :: 0 <= k < |marks| && marks[k] ==> table[k] == Some(Rank(marks, k))
  }

  lemma TableMovesChildren(a: Arena, marks: seq<bool>, table: seq<Option<nat>>, i: nat)
    requires WellFormed(a) && KeepsReferences(a, marks) && TableOk(marks, table) && i < |marks| && marks[i]
    requires NodeOk(a, i)
    ensures forall k :: 0 <= k < |Children(a, i)| ==> Children(a, i)[k] < |table| && table[Children(a, i)[k]].Some?
    ensures seq(|Children(a, i)|, k requires 0 <= k < |Children(a, i)| => table[Children(a, i)[k]].value) ==
      RankAll(marks, Children(a, i))
  {
  }

  /** The slices of the kept nodes, laid out anew. */
  method MoveSlices(a: Arena, marks: seq<bool>, kept: seq<Node>, table: seq<Option<nat>>, ghost base: Arena)
    returns (nodes: seq<Node>, edges: seq<nat>, boundaries: seq<BoundaryPolicy>)
    requires WellFormed(a) && KeepsReferences(a, marks) && TableOk(marks, table) && |kept| == Rank(marks, |marks|)
    requires forall k :: 0 <= k < |marks| && marks[k] ==> Rank(marks, k) < |kept| && kept[Rank(marks, k)] == a.nodes[k]
    ensures |nodes| == |kept|
    ensures forall k :: 0 <= k < |marks| && marks[k] ==>
      NodeOk(a, k) && Moved(a, base.(nodes := nodes, edges := edges, boundaries := boundaries), marks, k)
  {
    nodes, edges, boundaries := kept, [], [];
    for i := 0 to |a.nodes|
      invariant Placed(a, base.(nodes := nodes, edges := edges, boundaries := boundaries), marks, i)
    {
      if marks[i] {
        assert NodeOk(a, i);
        var source := a.nodes[i];
        var at := table[i].value;
        var children := Children(a, i);
        TableMovesChildren(a, marks, table, i);
        var moved := seq(|children|, k requires 0 <= k < |children| => table[children[k]].value);
        ghost var was := base.(nodes := nodes, edges := edges, boundaries := boundaries);
        nodes := nodes[at := source.(edgeStart := |edges|, boundaryStart := |boundaries|)];
        edges := edges + moved;
        if source.kind == Serial {
          boundaries := boundaries + Boundaries(a, i);
        }
        PlaceStep(a, was, base.(nodes := nodes, edges := edges, boundaries := boundaries), marks, i);
      }
    }
  }

  /** All kept nodes are in the table. */
  ghost predicate Tabled(a: Arena, b: Arena, marks: seq<bool>)
    requires |marks| == |a.nodes|
  {
    && |b.nodes| == Rank(marks, |marks|)
    && (forall k :: 0 <= k < |marks| && marks[k] ==>
      Rank(marks, k) < |b.nodes| && SameNode(a.nodes[k], b.nodes[Rank(marks, k)]))
  }

  /** All kept nodes are in the table, and the slices of those before `i` are laid out. */
  ghost predicate Placed(a: Arena, b: Arena, marks: seq<bool>, i: nat)
    requires KeepsReferences(a, marks)
  {
    Tabled(a, b, marks) && MovedBelow(a, b, marks, i)
  }

  ghost predicate MovedBelow(a: Arena, b: Arena, marks: seq<bool>, i: nat)
    requires KeepsReferences(a, marks)
  {
    forall k :: 0 <= k < i && k < |marks| && marks[k] ==> NodeOk(a, k) && Moved(a, b, marks, k)
  }

  lemma TabledStep(a: Arena, b: Arena, c: Arena, marks: seq<bool>, i: nat)
    requires |marks| == |a.nodes| && Tabled(a, b, marks) && i < |marks| && marks[i]
    requires c.nodes == b.nodes[Rank(marks, i) := a.nodes[i].(edgeStart := |b.edges|, boundaryStart := |b.boundaries|)]
    ensures Tabled(a, c, marks)
  {
    forall k | 0 <= k < |marks| && marks[k] ensures SameNode(a.nodes[k], c.nodes[Rank(marks, k)]) {
      if k < i {
        RankIsMonotone(marks, k, i);
      } else if i < k {
        RankIsMonotone(marks, i, k);
      }
    }
  }

  /** The slices of node `i` are laid out at the end. */
  lemma SlicesLaidOut(a: Arena, b: Arena, c: Arena, marks: seq<bool>, i: nat)
    requires KeepsReferences(a, marks) && i < |marks| && marks[i] && NodeOk(a, i) && Tabled(a, b, marks)
    requires c.nodes == b.nodes[Rank(marks, i) := a.nodes[i].(edgeStart := |b.edges|, boundaryStart := |b.boundaries|)]
    requires c.edges == b.edges + RankAll(marks, Children(a, i))
    requires c.boundaries == if a.nodes[i].kind == Serial then b.boundaries + Boundaries(a, i) else b.boundaries
    ensures Moved(a, c, marks, i)
  {
    SliceAtEnd(b.edges, RankAll(marks, Children(a, i)));
    if a.nodes[i].kind == Serial {
      SliceAtEnd(b.boundaries, Boundaries(a, i));
    }
  }

  lemma SliceAtEnd<T>(xs: seq<T>, ys: seq<T>)
    ensures (xs + ys)[|xs|..|xs| + |ys|] == ys
  {
  }

  lemma PlaceStep(a: Arena, b: Arena, c: Arena, marks: seq<bool>, i: nat)
    requires KeepsReferences(a, marks) && i < |marks| && marks[i] && NodeOk(a, i) && Placed(a, b, marks, i)
    requires c.nodes == b.nodes[Rank(marks, i) := a.nodes[i].(edgeStart := |b.edges|, boundaryStart := |b.boundaries|)]
    requires c.edges == b.edges + RankAll(marks, Children(a, i))
    requires c.boundaries == if a.nodes[i].kind == Serial then b.boundaries + Boundaries(a, i) else b.boundaries
    ensures Placed(a, c, marks, i + 1)
  {
    TabledStep(a, b, c, marks, i);
    SlicesLaidOut(a, b, c, marks, i);
    assert c.edges[..|b.edges|] == b.edges && c.boundaries[..|b.boundaries|] == b.boundaries;
    MovedStays(a, b, c, marks, i);
  }

  /** Build the collected arena: new nodes first, then their slices of edges and boundaries. */
  method Renumber(a: Arena, marks: seq<bool>, root: nat) returns (p: Program)
    requires WellFormed(a) && KeepsReferences(a, marks) && root < |marks| && marks[root]
    ensures p.root == Rank(marks, root) && Renumbered(a, p.arena, marks)
  {
    var kept, table := KeepNodes(a, marks);
    ghost var base := a.(nodes := [], edges := [], boundaries := [], templates := RankAll(marks, a.templates));
    var nodes, edges, boundaries := MoveSlices(a, marks, kept, table, base);
    var templates := seq(|a.templates|, t requires 0 <= t < |a.templates| => table[a.templates[t]].value);
    assert templates == RankAll(marks, a.templates);
    p := Program(table[root].value, a.(nodes := nodes, edges := edges, boundaries := boundaries,
      templates := templates));
  }

  /** Writing the slices of node `i` disturbs no earlier node. */
  lemma MovedStays(a: Arena, b: Arena, c: Arena, marks: seq<bool>, i: nat)
    requires KeepsReferences(a, marks) && i < |marks| && marks[i] && NodeOk(a, i)
    requires |b.nodes| == |c.nodes| == Rank(marks, |marks|) && b.edges <= c.edges && b.boundaries <= c.boundaries
    requires forall j :: 0 <= j < |b.nodes| && j != Rank(marks, i) ==> c.nodes[j] == b.nodes[j]
    requires MovedBelow(a, b, marks, i)
    ensures MovedBelow(a, c, marks, i)
  {
    forall k | 0 <= k < i && marks[k] ensures NodeOk(a, k) && Moved(a, c, marks, k) {
      assert Moved(a, b, marks, k);
      RankIsMonotone(marks, k, i);
      var j := Rank(marks, k);
      assert c.nodes[j] == b.nodes[j];
      assert Children(c, j) == Children(b, j);
    }
  }

  // ---- validation

  /** Every board call of an Opaque node names a board and a callable, and there is at least one. */
  predicate CallsNamed(a: Arena, i: nat)
    requires i < |a.nodes| && PayloadOk(a, i)
  {
    a.nodes[i].kind == Opaque ==>
      var p := a.payloads[a.nodes[i].payload.value];
      p.callCount > 0 && forall k :: p.callStart <= k < p.callStart + p.callCount ==>
        a.calls[k].board != "" && a.calls[k].callable != ""
  }

  /** The payload check of validation: weaker than `PayloadOk`, which also orders templates before their instances. */
  predicate PayloadFits(a: Arena, i: nat)
    requires i < |a.nodes|
  {
    var n := a.nodes[i];
    match n.payload
    case None => n.kind in {Serial, Parallel, SyncPhi}
    case Some(p) =>
      && p < |a.payloads| && KindOf(a.payloads[p]) == n.kind
      && match a.payloads[p]
         case AtomicPayload(operation, start, count) => operation < |a.operations| && start + count <= |a.arguments|
         case DefinitionPayload(definition, start,
           count) => definition < |a.definitions| && start + count <= |a.arguments|
         case InstantiatePayload(template, channel) => template < |a.templates| && channel < |a.channels|
         case OpaquePayload(_, start, count, _) =>
           && start + count <= |a.calls| && count > 0
           && forall k :: start <= k < start + count ==> a.calls[k].board != "" && a.calls[k].callable != ""
         case _ => true
  }

  /** What validation accepts of one node. */
  predicate NodeValid(a: Arena, i: nat)
    requires i < |a.nodes|
  {
    var n := a.nodes[i];
    && EdgesInRange(a, i) && Below(Children(a, i), |a.nodes|)
    && (match n.kind
        case Serial => n.edgeCount >= 2
        case Parallel => n.edgeCount >= 2
        case Loop => n.edgeCount == 1
        case _ => n.edgeCount == 0)
    && (n.kind == Serial ==> n.boundaryStart + n.edgeCount - 1 <= |a.boundaries|)
    && PayloadFits(a, i)
  }

  predicate ProgramValid(p: Program) {
    && p.root < |p.arena.nodes|
    && (forall t :: 0 <= t < |p.arena.templates| ==> p.arena.templates[t] < |p.arena.nodes|)
    && (forall i :: 0 <= i < |p.arena.nodes| ==> NodeValid(p.arena, i))
  }

  /** The checks in the order the source makes them; each failing check ends the loop. */
  method Validate(p: Program) returns (ok: bool)
    ensures ok <==> ProgramValid(p)
  {
    var a := p.arena;
    if p.root >= |a.nodes| { return false; }
    for t := 0 to |a.templates|
      invariant forall k :: 0 <= k < t ==> a.templates[k] < |a.nodes|
    {
      if a.templates[t] >= |a.nodes| { return false; }
    }
    for i := 0 to |a.nodes|
      invariant forall k :: 0 <= k < i ==> NodeValid(a, k)
    {
      var valid := ValidateNode(a, i);
      if !valid { return false; }
    }
    return true;
  }

  method ValidateNode(a: Arena, i: nat) returns (ok: bool)
    requires i < |a.nodes|
    ensures ok <==> NodeValid(a, i)
  {
    var n := a.nodes[i];
    if n.edgeStart + n.edgeCount > |a.edges| { return false; }
    var children := a.edges[n.edgeStart..n.edgeStart + n.edgeCount];
    assert children == Children(a, i);
    if exists k :: 0 <= k < |children| && children[k] >= |a.nodes| { return false; }
    match n.kind {
      case Serial =>
        if |children| < 2 { return false; }
        if n.boundaryStart + n.edgeCount - 1 > |a.boundaries| { return false; }
      case Parallel => if |children| < 2 { return false; }
      case Loop => if |children| != 1 { return false; }
      case _ => if |children| != 0 { return false; }
    }
    return PayloadFits(a, i);
  }

  /** A well-formed arena is valid exactly when its board calls are named. */
  lemma WellFormedIsValid(p: Program)
    requires WellFormed(p.arena) && p.root < |p.arena.nodes|
    ensures ProgramValid(p) <==> forall i :: 0 <= i < |p.arena.nodes| ==> NodeOk(p.arena, i) && CallsNamed(p.arena, i)
  {
    forall i | 0 <= i < |p.arena.nodes|
      ensures NodeOk(p.arena, i) && (NodeValid(p.arena, i) <==> CallsNamed(p.arena, i))
    {
      assert NodeOk(p.arena, i);
    }
  }

  /** What validation leaves to the builder: references lead to earlier nodes, and no composition stands directly
      under its own kind. */
  predicate OrderedAt(a: Arena, i: nat)
    requires i < |a.nodes| && NodeValid(a, i)
  {
    var n := a.nodes[i];
    && Below(Children(a, i), i)
    && (n.kind in {Serial, Parallel} ==> NoneOfKind(a, Children(a, i), n.kind))
    && (n.kind == Instantiate ==> a.templates[a.payloads[n.payload.value].template] < i)
  }

  /** A valid program is well formed exactly when it is in order, and its board calls are named. */
  lemma ValidIsWellFormed(p: Program)
    requires ProgramValid(p)
    ensures WellFormed(p.arena) <==> forall i :: 0 <= i < |p.arena.nodes| ==> OrderedAt(p.arena, i)
    ensures forall i :: 0 <= i < |p.arena.nodes| && PayloadOk(p.arena, i) ==> CallsNamed(p.arena, i)
  {
    forall i | 0 <= i < |p.arena.nodes|
      ensures NodeValid(p.arena, i) && (NodeOk(p.arena, i) <==> OrderedAt(p.arena, i))
      ensures PayloadOk(p.arena, i) ==> CallsNamed(p.arena, i)
    {
      assert NodeValid(p.arena, i);
    }
  }

  /** What collection promises: the same meaning for the root and for every template, and nothing unreachable kept. */
  ghost predicate Collected(a: Arena, root: nat, p: Program)
    requires WellFormed(a) && root < |a.nodes|
  {
    && WellFormed(p.arena) && p.root < |p.arena.nodes| && |p.arena.templates| == |a.templates|
    && Unfold(p.arena, p.root) == Unfold(a, root)
    && (forall t :: 0 <= t < |a.templates| ==> Unfold(p.arena, p.arena.templates[t]) == Unfold(a, a.templates[t]))
    && (forall j: nat :: j < |p.arena.nodes| ==> Reachable(p.arena, Roots(p.arena, p.root), j))
  }

  lemma RenumberedIsCollected(a: Arena, marks: seq<bool>, root: nat, p: Program)
    requires WellFormed(a) && root < |a.nodes| && KeepsReferences(a, marks) && MarksReachable(a, marks, root)
    requires marks[root]
    requires p.root == Rank(marks, root) && Renumbered(a, p.arena, marks)
    ensures Collected(a, root, p)
  {
    RenumberedIsWellFormed(a, p.arena, marks);
    RenumberedUnfold(a, p.arena, marks, root);
    forall t | 0 <= t < |a.templates| ensures Unfold(p.arena, p.arena.templates[t]) == Unfold(a, a.templates[t]) {
      RenumberedUnfold(a, p.arena, marks, a.templates[t]);
    }
    RootsAreMarked(a, marks, root);
    forall j: nat | j < |p.arena.nodes| ensures Reachable(p.arena, Roots(p.arena, p.root), j) {
      var i := RankIsOnto(marks, |marks|, j);
      var n: nat :| ReachedIn(a, Roots(a, root), i, n);
      RenumberedReach(a, p.arena, marks, root, i, n);
    }
  }

  /** A node keeps its board calls. */
  lemma RenumberedCalls(a: Arena, marks: seq<bool>, b: Arena, i: nat)
    requires WellFormed(a) && KeepsReferences(a, marks) && Renumbered(a, b, marks) && WellFormed(b)
    requires i < |marks| && marks[i]
    ensures NodeOk(a, i) && Rank(marks, i) < |b.nodes| && NodeOk(b, Rank(marks, i))
    ensures CallsNamed(b, Rank(marks, i)) <==> CallsNamed(a, i)
  {
    assert Moved(a, b, marks, i);
    MovedNodeOk(a, b, marks, i);
  }

  /** Validation can only fail on a kept Opaque node whose calls are missing or unnamed. */
  lemma CollectedIsValid(a: Arena, marks: seq<bool>, root: nat, p: Program)
    requires WellFormed(a) && root < |a.nodes| && KeepsReferences(a, marks) && MarksReachable(a, marks, root)
    requires marks[root]
    requires p.root == Rank(marks, root) && Renumbered(a, p.arena, marks) && Collected(a, root, p)
    ensures ProgramValid(p) <==> ReachableCallsNamed(a, root)
  {
    WellFormedIsValid(p);
    forall i: nat | i < |a.nodes| && marks[i]
      ensures NodeOk(a, i) && Rank(marks, i) < |p.arena.nodes| && NodeOk(p.arena, Rank(marks, i))
      ensures CallsNamed(p.arena, Rank(marks, i)) <==> CallsNamed(a, i)
    {
      RenumberedCalls(a, marks, p.arena, i);
    }
    forall j: nat | ReachableCallsNamed(a, root) && j < |p.arena.nodes|
      ensures NodeOk(p.arena, j) && CallsNamed(p.arena, j)
    {
      var i := RankIsOnto(marks, |marks|, j);
      assert Reachable(a, Roots(a, root), i);
    }
  }

  ghost predicate ReachableCallsNamed(a: Arena, root: nat) {
    forall i: nat :: i < |a.nodes| && Reachable(a, Roots(a, root), i) ==> NodeOk(a, i) && CallsNamed(a, i)
  }
}
