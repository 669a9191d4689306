/** An append-only store of segments, whose checks and appends happen under different locks. */
module Store {
  import opened Common

  datatype SegmentKind = TemplateSegment | ProgramSegment

  datatype NodeKind =
    | Atomic | Wait | AutoSerial | StrictSerial | Parallel | Annotate | Reference | DeferredApply
    | DeferredChannel | DeferredBatch | Repeat | Instantiate | SourceCall

  datatype SegmentId = SegmentId(store: nat, index: nat)

  datatype NodeRef = NodeRef(store: nat, segment: nat, index: nat) {
    function Segment(): SegmentId {
      SegmentId(store, segment)
    }
  }

  datatype TemplateId = TemplateId(store: nat, index: nat)

  datatype Node = Node(kind: NodeKind, left: Option<NodeRef>, right: Option<NodeRef>, payload: nat, mask: bv128,
    provenance: nat) {
    function Children(): seq<NodeRef> {
      (if left.Some? then [left.value] else []) + if right.Some? then [right.value] else []
    }
  }

  datatype Segment = Segment(kind: SegmentKind, frozen: bool, nodes: seq<Node>)

  datatype Template = Template(root: NodeRef, schema: nat)

  datatype Instance = Instance(template: TemplateId, binding: nat)

  /** Everything behind the lock. */
  datatype Inner = Inner(segments: seq<Segment>, templates: seq<Template>, instances: seq<Instance>)

  datatype StoreError = ForeignSegment | UnknownSegment | UnknownNode | ForeignTemplate | UnknownTemplate
    | Frozen | NotTemplate | TemplateDependsOnProgram | BadShape | BadKind | MissingInstance

  const EMPTY := Inner([], [], [])

  // ---- lookups

  function SegmentFrom(id: nat, s: Inner, segment: SegmentId): Result<Segment, StoreError> {
    if segment.store != id then Err(ForeignSegment)
    else if segment.index < |s.segments| then Ok(s.segments[segment.index])
    else Err(UnknownSegment)
  }

  function NodeFrom(id: nat, s: Inner, r: NodeRef): Result<Node, StoreError> {
    var segment := SegmentFrom(id, s, r.Segment());
    if segment.Err? then Err(segment.error)
    else if r.index < |segment.value.nodes| then Ok(segment.value.nodes[r.index])
    else Err(UnknownNode)
  }

  function TemplateFrom(id: nat, s: Inner, t: TemplateId): Result<Template, StoreError> {
    if t.store != id then Err(ForeignTemplate)
    else if t.index < |s.templates| then Ok(s.templates[t.index])
    else Err(UnknownTemplate)
  }

  predicate Exists(id: nat, s: Inner, r: NodeRef) {
    NodeFrom(id, s, r).Ok?
  }

  predicate InTemplate(id: nat, s: Inner, segment: SegmentId) {
    SegmentFrom(id, s, segment).Ok? && SegmentFrom(id, s, segment).value.kind == TemplateSegment
  }

  // ---- what the read lock checks before an append

  predicate ShapeOk(kind: NodeKind, left: Option<NodeRef>, right: Option<NodeRef>) {
    match kind
    case Atomic => left.None? && right.None?
    case Wait => left.None? && right.None?
    case Reference => left.None? && right.None?
    case DeferredChannel => left.None? && right.None?
    case SourceCall => left.None? && right.None?
    case AutoSerial => left.Some? && right.Some?
    case StrictSerial => left.Some? && right.Some?
    case Parallel => left.Some? && right.Some?
    case Annotate => left.Some? && right.None?
    case DeferredApply => left.Some? && right.None?
    case DeferredBatch => left.Some? && right.None?
    case Repeat => left.Some? && right.None?
    case Instantiate => false
  }

  /** A node fit for a segment: the right shape, existing children, and no way out of a template segment. */
  predicate Fits(id: nat, s: Inner, segment: SegmentId, n: Node) {
    && n.kind != Instantiate
    && (n.left.Some? <==>
      n.kind in {AutoSerial, StrictSerial, Parallel, Annotate, DeferredApply, DeferredBatch, Repeat})
    && (n.right.Some? <==> n.kind in {AutoSerial, StrictSerial, Parallel})
    && (forall k :: 0 <= k < |n.Children()| ==> Exists(id, s, n.Children()[k]))
    && (n.Children() != [] ==> SegmentFrom(id, s, segment).Ok?)
    && (InTemplate(id, s, segment) ==> forall k :: 0 <= k < |n.Children()| ==>
      InTemplate(id, s, n.Children()[k].Segment()))
  }

  // ---- what happens under the write lock

  datatype Step =
    | CreateSegment(kind: SegmentKind)
    | AppendNode(segment: SegmentId, node: Node)
    | Publish(root: NodeRef, schema: nat)
    | InstantiateTemplate(target: SegmentId, template: TemplateId, binding: nat, mask: bv128, provenance: nat)

  function WithNode(s: Inner, i: nat, n: Node): Inner
    requires i < |s.segments|
  {
    s.(segments := s.segments[i := s.segments[i].(nodes := s.segments[i].nodes + [n])])
  }

  function Perform(id: nat, s: Inner, step: Step): Result<Inner, StoreError> {
    match step
    case CreateSegment(kind) => Ok(s.(segments := s.segments + [Segment(kind, false, [])]))
    case AppendNode(segment, n) =>
      var target := SegmentFrom(id, s, segment);
      if target.Err? then Err(target.error)
      else if target.value.frozen then Err(Frozen)
      else Ok(WithNode(s, segment.index, n))
    case Publish(root, schema) =>
      if NodeFrom(id, s, root).Err? then Err(NodeFrom(id, s, root).error)
      else if s.segments[root.segment].kind != TemplateSegment then Err(NotTemplate)
      else Ok(Inner(s.segments[root.segment := s.segments[root.segment].(frozen := true)],
        s.templates + [Template(root, schema)], s.instances))
    case InstantiateTemplate(target, template, binding, mask, provenance) =>
      var segment := SegmentFrom(id, s, target);
      if TemplateFrom(id, s, template).Err? then Err(TemplateFrom(id, s, template).error)
      else if segment.Err? then Err(segment.error)
      else if segment.value.frozen then Err(Frozen)
      else Ok(WithNode(s, target.index, Node(Instantiate, None, None, |s.instances|, mask, provenance))
        .(instances := s.instances + [Instance(template, binding)]))
  }

  // ---- growth

  predicate SegmentGrows(a: Segment, b: Segment) {
    a.kind == b.kind && a.nodes <= b.nodes && (a.frozen ==> b.frozen && a.nodes == b.nodes)
  }

  /** Nothing is ever taken back: kinds stay, nodes stay, and a frozen segment stays as it is. */
  predicate Grows(s: Inner, s': Inner) {
    && |s.segments| <= |s'.segments| && s.templates <= s'.templates && s.instances <= s'.instances
    && forall i {:trigger SegmentGrows(s.segments[i], s'.segments[i])} :: 0 <= i < |s.segments| ==>
      SegmentGrows(s.segments[i], s'.segments[i])
  }

  lemma GrowsTransitive(a: Inner, b: Inner, c: Inner)
    requires Grows(a, b) && Grows(b, c)
    ensures Grows(a, c)
  {
    forall i | 0 <= i < |a.segments|
      ensures SegmentGrows(a.segments[i], c.segments[i])
    {
      assert SegmentGrows(a.segments[i], b.segments[i]) && SegmentGrows(b.segments[i], c.segments[i]);
    }
  }

  lemma PerformGrows(id: nat, s: Inner, step: Step)
    requires Perform(id, s, step).Ok?
    ensures Grows(s, Perform(id, s, step).value)
  {
    var s' := Perform(id, s, step).value;
    forall i | 0 <= i < |s.segments|
      ensures SegmentGrows(s.segments[i], s'.segments[i])
    {
    }
  }

  lemma NodeStays(id: nat, s: Inner, s': Inner, r: NodeRef)
    requires Grows(s, s') && Exists(id, s, r)
    ensures NodeFrom(id, s', r) == NodeFrom(id, s, r)
    ensures InTemplate(id, s', r.Segment()) == InTemplate(id, s, r.Segment())
  {
    assert SegmentGrows(s.segments[r.segment], s'.segments[r.segment]);
  }

  /** What was checked under the read lock still holds whenever the append comes. */
  lemma CheckedStaysTrue(id: nat, s: Inner, s': Inner, segment: SegmentId, n: Node)
    requires Grows(s, s') && Fits(id, s, segment, n)
    ensures Fits(id, s', segment, n)
  {
    forall k | 0 <= k < |n.Children()|
      ensures Exists(id, s', n.Children()[k])
    {
      NodeStays(id, s, s', n.Children()[k]);
    }
    if n.Children() != [] && InTemplate(id, s', segment) {
      assert SegmentGrows(s.segments[segment.index], s'.segments[segment.index]);
      forall k | 0 <= k < |n.Children()|
        ensures InTemplate(id, s', n.Children()[k].Segment())
      {
        NodeStays(id, s, s', n.Children()[k]);
      }
    }
  }

  // ---- references

  /** What a node refers to: its children, or the root of the template it instantiates. */
  function Targets(id: nat, s: Inner, n: Node): seq<NodeRef> {
    if n.kind != Instantiate then n.Children()
    else if n.payload < |s.instances| && TemplateFrom(id, s, s.instances[n.payload].template).Ok?
    then [TemplateFrom(id, s, s.instances[n.payload].template).value.root]
    else []
  }

  ghost predicate NodeOk(id: nat, s: Inner, r: NodeRef, rank: map<NodeRef, nat>)
    requires Exists(id, s, r)
  {
    var n := NodeFrom(id, s, r).value;
    && (n.kind == Instantiate ==> n.payload < |s.instances| && TemplateFrom(id, s, s.instances[n.payload].template).Ok?)
    && r in rank
    && forall q :: q in Targets(id, s, n) ==>
      Exists(id, s, q) && q in rank && rank[q] < rank[r] &&
        (InTemplate(id, s, r.Segment()) ==> InTemplate(id, s, q.Segment()))
  }

  /** Every reference leads to a node of lower rank, and from template segments only to template segments. */
  ghost predicate Ranked(id: nat, s: Inner, rank: map<NodeRef, nat>, bound: nat) {
    && (forall r {:trigger NodeOk(id, s, r, rank)} :: Exists(id, s, r) ==> NodeOk(id, s, r, rank))
    && (forall r :: r in rank ==> rank[r] < bound)
  }

  ghost predicate TemplatesOk(id: nat, s: Inner) {
    forall t :: 0 <= t < |s.templates| ==>
      Exists(id, s, s.templates[t].root) && InTemplate(id, s, s.templates[t].root.Segment())
        && s.segments[s.templates[t].root.segment].frozen
  }

  ghost predicate Invariant(id: nat, s: Inner) {
    TemplatesOk(id, s) && exists rank: map<NodeRef, nat>, bound: nat :: Ranked(id, s, rank, bound)
  }

  lemma EmptyInvariant(id: nat)
    ensures Invariant(id, EMPTY)
  {
    assert Ranked(id, EMPTY, map[], 0);
  }

  lemma TargetsStay(id: nat, s: Inner, s': Inner, r: NodeRef, rank: map<NodeRef, nat>)
    requires Grows(s, s') && Exists(id, s, r) && NodeOk(id, s, r, rank)
    ensures Targets(id, s', NodeFrom(id, s, r).value) == Targets(id, s, NodeFrom(id, s, r).value)
    ensures Exists(id, s', r) && NodeFrom(id, s', r) == NodeFrom(id, s, r)
  {
    NodeStays(id, s, s', r);
  }

  lemma NodeOkStays(id: nat, s: Inner, s': Inner, r: NodeRef, rank: map<NodeRef, nat>, rank': map<NodeRef, nat>)
    requires Grows(s, s') && Exists(id, s, r) && NodeOk(id, s, r, rank)
    requires forall q :: q in rank ==> q in rank' && rank'[q] == rank[q]
    ensures Exists(id, s', r) && NodeOk(id, s', r, rank')
  {
    TargetsStay(id, s, s', r, rank);
    NodeStays(id, s, s', r);
    forall q | q in Targets(id, s, NodeFrom(id, s, r).value)
      ensures Exists(id, s', q) && (InTemplate(id, s', r.Segment()) ==> InTemplate(id, s', q.Segment()))
    {
      NodeStays(id, s, s', q);
    }
  }

  function NewRef(id: nat, s: Inner, i: nat): NodeRef
    requires i < |s.segments|
  {
    NodeRef(id, i, |s.segments[i].nodes|)
  }

  /** A node added to an open segment whose targets are all there and respect the template boundary. */
  lemma RankedWithNode(id: nat, s: Inner, s': Inner, i: nat, n: Node, rank: map<NodeRef, nat>, bound: nat)
    requires Ranked(id, s, rank, bound) && Grows(s, s') && i < |s.segments| && s'.segments == WithNode(s, i, n).segments
    requires n.kind == Instantiate ==>
      n.payload < |s'.instances| && TemplateFrom(id, s', s'.instances[n.payload].template).Ok?
    requires forall q :: q in Targets(id, s', n) ==>
      Exists(id, s, q) && (s.segments[i].kind == TemplateSegment ==> InTemplate(id, s, q.Segment()))
    ensures Ranked(id, s', rank[NewRef(id, s, i) := bound], bound + 1)
  {
    var added := NewRef(id, s, i);
    var rank' := rank[added := bound];
    assert !Exists(id, s, added);
    forall r | Exists(id, s', r)
      ensures NodeOk(id, s', r, rank')
    {
      if r == added {
        forall q | q in Targets(id, s', n)
          ensures Exists(id, s', q) && q in rank' && rank'[q] < bound
          ensures (InTemplate(id, s', added.Segment()) ==> InTemplate(id, s', q.Segment()))
        {
          NodeStays(id, s, s', q);
          assert NodeOk(id, s, q, rank);
        }
      } else {
        assert Exists(id, s, r);
        OldNodeOk(id, s, s', r, rank, added, bound);
      }
    }
  }

  lemma OldNodeOk(id: nat, s: Inner, s': Inner, r: NodeRef, rank: map<NodeRef, nat>, added: NodeRef, bound: nat)
    requires Ranked(id, s, rank, bound) && Grows(s, s') && Exists(id, s, r) && !Exists(id, s, added)
    ensures Exists(id, s', r) && NodeOk(id, s', r, rank[added := bound])
  {
    TargetsStay(id, s, s', r, rank);
    NodeStays(id, s, s', r);
    assert NodeOk(id, s, r, rank);
    forall q | q in Targets(id, s, NodeFrom(id, s, r).value)
      ensures Exists(id, s', q) && q != added && (InTemplate(id, s', r.Segment()) ==> InTemplate(id, s', q.Segment()))
    {
      NodeStays(id, s, s', q);
    }
  }

  /** Every atomic step keeps the invariant, when an appended node was checked in a state that has since only grown. */
  lemma PerformKeepsInvariant(id: nat, s: Inner, step: Step)
    requires Invariant(id, s) && Perform(id, s, step).Ok?
    requires step.AppendNode? ==> Fits(id, s, step.segment, step.node)
    ensures Invariant(id, Perform(id, s, step).value)
  {
    var s' := Perform(id, s, step).value;
    PerformGrows(id, s, step);
    TemplatesStay(id, s, step);
    var rank: map<NodeRef, nat>, bound: nat :| Ranked(id, s, rank, bound);
    match step
    case AppendNode(segment, n) =>
      RankedWithNode(id, s, s', segment.index, n, rank, bound);
    case InstantiateTemplate(target, template, binding, mask, provenance) =>
      RankedWithNode(id, s, s', target.index, Node(Instantiate, None, None, |s.instances|, mask, provenance), rank,
        bound);
    case _ =>
      forall r | Exists(id, s', r)
        ensures NodeOk(id, s', r, rank)
      {
        assert Exists(id, s, r);
        NodeOkStays(id, s, s', r, rank, rank);
      }
      assert Ranked(id, s', rank, bound);
  }

  lemma TemplatesStay(id: nat, s: Inner, step: Step)
    requires TemplatesOk(id, s) && Perform(id, s, step).Ok?
    ensures TemplatesOk(id, Perform(id, s, step).value)
  {
    var s' := Perform(id, s, step).value;
    PerformGrows(id, s, step);
    forall t | 0 <= t < |s'.templates|
      ensures Exists(id, s', s'.templates[t].root) && InTemplate(id, s', s'.templates[t].root.Segment())
        && s'.segments[s'.templates[t].root.segment].frozen
    {
      var root := s'.templates[t].root;
      NodeStays(id, s, s', root);
      assert SegmentGrows(s.segments[root.segment], s'.segments[root.segment]);
    }
  }

  // ---- interleavings

  /** The states a store goes through when threads take the write lock in any order. A checked append was checked in
      some earlier state, with any number of other steps in between. */
  ghost predicate ValidRun(id: nat, states: seq<Inner>, steps: seq<Step>) {
    && |states| == |steps| + 1 && states[0] == EMPTY
    && forall i :: 0 <= i < |steps| ==>
      && Perform(id, states[i], steps[i]) == Ok(states[i + 1])
      && (steps[i].AppendNode? ==> exists j :: 0 <= j <= i && Fits(id, states[j], steps[i].segment, steps[i].node))
  }

  lemma {:induction false} RunGrows(id: nat, states: seq<Inner>, steps: seq<Step>, i: nat, j: nat)
    requires ValidRun(id, states, steps) && i <= j < |states|
    ensures Grows(states[i], states[j])
    decreases j - i
  {
    if i < j {
      RunGrows(id, states, steps, i, j - 1);
      assert Perform(id, states[j - 1], steps[j - 1]) == Ok(states[j - 1 + 1]);
      PerformGrows(id, states[j - 1], steps[j - 1]);
      GrowsTransitive(states[i], states[j - 1], states[j]);
    }
  }

  /** Under every interleaving: at the append the checked facts still hold, and every state keeps the invariant. */
  lemma {:induction false} EveryStateIsSound(id: nat, states: seq<Inner>, steps: seq<Step>, i: nat)
    requires ValidRun(id, states, steps) && i < |states|
    ensures Invariant(id, states[i])
    ensures i < |steps| && steps[i].AppendNode? ==> Fits(id, states[i], steps[i].segment, steps[i].node)
  {
    if i == 0 {
      EmptyInvariant(id);
    } else {
      EveryStateIsSound(id, states, steps, i - 1);
      assert Perform(id, states[i - 1], steps[i - 1]) == Ok(states[i - 1 + 1]);
      PerformKeepsInvariant(id, states[i - 1], steps[i - 1]);
    }
    if i < |steps| && steps[i].AppendNode? {
      var j :| 0 <= j <= i && Fits(id, states[j], steps[i].segment, steps[i].node);
      RunGrows(id, states, steps, j, i);
      CheckedStaysTrue(id, states[j], states[i], steps[i].segment, steps[i].node);
    }
  }

  // ---- reachability

  /** The references of a node; none when there is no such node. */
  function References(id: nat, s: Inner, r: NodeRef): seq<NodeRef> {
    if Exists(id, s, r) then Targets(id, s, NodeFrom(id, s, r).value) else []
  }

  /** Every node of the path is a reference of the one before. */
  ghost predicate IsPath(id: nat, s: Inner, p: seq<NodeRef>) {
    p != [] && forall k :: 0 <= k < |p| - 1 ==> p[k + 1] in References(id, s, p[k])
  }

  ghost predicate Reaches(id: nat, s: Inner, r: NodeRef, q: NodeRef) {
    exists p :: IsPath(id, s, p) && p[0] == r && p[|p| - 1] == q
  }

  lemma ReachesItself(id: nat, s: Inner, r: NodeRef)
    ensures Reaches(id, s, r, r)
  {
    assert IsPath(id, s, [r]) && [r][0] == r && [r][|[r]| - 1] == r;
  }

  lemma PathTo(id: nat, s: Inner, r: NodeRef, q: NodeRef) returns (p: seq<NodeRef>)
    requires Reaches(id, s, r, q)
    ensures IsPath(id, s, p) && p[0] == r && p[|p| - 1] == q
  {
    p :| IsPath(id, s, p) && p[0] == r && p[|p| - 1] == q;
  }

  lemma ReachesOneMore(id: nat, s: Inner, r: NodeRef, m: NodeRef, q: NodeRef)
    requires Reaches(id, s, r, m) && q in References(id, s, m)
    ensures Reaches(id, s, r, q)
  {
    var p := PathTo(id, s, r, m);
    var p' := p + [q];
    forall k | 0 <= k < |p'| - 1
      ensures p'[k + 1] in References(id, s, p'[k])
    {
      assert p'[k] == p[k];
    }
    assert IsPath(id, s, p') && p'[0] == r && p'[|p'| - 1] == q;
  }

  /** References are acyclic: no path of more than one node comes back. */
  lemma NoCycle(id: nat, s: Inner, p: seq<NodeRef>)
    requires Invariant(id, s) && IsPath(id, s, p) && |p| > 1
    ensures p[0] != p[|p| - 1]
  {
    var rank: map<NodeRef, nat>, bound: nat :| Ranked(id, s, rank, bound);
    RankFalls(id, s, rank, bound, p, |p| - 1);
  }

  lemma {:induction false} RankFalls(id: nat, s: Inner, rank: map<NodeRef, nat>, bound: nat, p: seq<NodeRef>, k: nat)
    requires Ranked(id, s, rank, bound) && IsPath(id, s, p) && 0 < k < |p|
    ensures p[0] in rank && p[k] in rank && rank[p[k]] < rank[p[0]]
  {
    if k > 1 {
      RankFalls(id, s, rank, bound, p, k - 1);
    }
    assert p[k - 1 + 1] in References(id, s, p[k - 1]);
    assert NodeOk(id, s, p[k - 1], rank);
  }

  lemma ReferencesStay(id: nat, s: Inner, s': Inner, r: NodeRef, m: NodeRef)
    requires Invariant(id, s) && Grows(s, s') && Exists(id, s, r)
    ensures References(id, s', r) == References(id, s, r)
    ensures m in References(id, s, r) ==>
      Exists(id, s, m) && (InTemplate(id, s, r.Segment()) ==> InTemplate(id, s, m.Segment()))
  {
    var rank: map<NodeRef, nat>, bound: nat :| Ranked(id, s, rank, bound);
    assert NodeOk(id, s, r, rank);
    TargetsStay(id, s, s', r, rank);
  }

  /** The nodes on a path never change, and a template segment is never left. */
  lemma {:induction false} PathNodeStays(id: nat, s: Inner, s': Inner, p: seq<NodeRef>, k: nat)
    requires Invariant(id, s) && Grows(s, s') && (IsPath(id, s, p) || IsPath(id, s', p)) && k < |p|
    requires Exists(id, s, p[0])
    ensures Exists(id, s, p[k]) && NodeFrom(id, s', p[k]) == NodeFrom(id, s, p[k])
    ensures References(id, s', p[k]) == References(id, s, p[k])
    ensures InTemplate(id, s, p[0].Segment()) ==> InTemplate(id, s, p[k].Segment())
  {
    if k > 0 {
      PathNodeStays(id, s, s', p, k - 1);
      assert p[k - 1 + 1] in References(id, s, p[k - 1]);
      ReferencesStay(id, s, s', p[k - 1], p[k]);
    }
    ReferencesStay(id, s, s', p[k], p[k]);
    NodeStays(id, s, s', p[k]);
  }

  /** From a node that was there, the same paths lead on in every later state. */
  lemma PathsStay(id: nat, s: Inner, s': Inner, p: seq<NodeRef>)
    requires Invariant(id, s) && Grows(s, s') && p != [] && Exists(id, s, p[0])
    ensures IsPath(id, s', p) <==> IsPath(id, s, p)
  {
    if IsPath(id, s, p) || IsPath(id, s', p) {
      forall k | 0 <= k < |p|
        ensures References(id, s', p[k]) == References(id, s, p[k])
      {
        PathNodeStays(id, s, s', p, k);
      }
    }
  }

  /** A published template keeps its meaning over the rest of every run: the same nodes are reached, all of them in
      template segments, and none of them changes. */
  lemma PublishedTemplateIsStable(id: nat, states: seq<Inner>, steps: seq<Step>, i: nat, j: nat, t: nat, q: NodeRef)
    requires ValidRun(id, states, steps) && i <= j < |states| && t < |states[i].templates|
    ensures t < |states[j].templates| && states[j].templates[t] == states[i].templates[t]
    ensures var root := states[i].templates[t].root;
      && (Reaches(id, states[j], root, q) <==> Reaches(id, states[i], root, q))
      && (Reaches(id, states[i], root, q) ==>
          Exists(id, states[i], q) && NodeFrom(id, states[j], q) == NodeFrom(id, states[i], q) && InTemplate(id,
            states[j], q.Segment()))
  {
    var s, s', root := states[i], states[j], states[i].templates[t].root;
    EveryStateIsSound(id, states, steps, i);
    RunGrows(id, states, steps, i, j);
    assert s'.templates[t] == s.templates[t];
    if Reaches(id, s, root, q) {
      var p := PathTo(id, s, root, q);
      PathsStay(id, s, s', p);
      PathNodeStays(id, s, s', p, |p| - 1);
      NodeStays(id, s, s', q);
    }
    if Reaches(id, s', root, q) {
      var p := PathTo(id, s', root, q);
      PathsStay(id, s, s', p);
    }
  }

  // ---- counting

  function AllRefs(id: nat, s: Inner): set<NodeRef> {
    set i, k | 0 <= i < |s.segments| && 0 <= k < |s.segments[i].nodes| :: NodeRef(id, i, k)
  }

  ghost predicate IsInstance(id: nat, s: Inner, r: NodeRef) {
    Exists(id, s, r) && NodeFrom(id, s, r).value.kind == Instantiate
  }

  ghost function InstancesIn(id: nat, s: Inner, refs: set<NodeRef>): set<NodeRef> {
    set r | r in refs && IsInstance(id, s, r)
  }

  /** Everything in sight is reachable. */
  ghost predicate Sighted(id: nat, s: Inner, root: NodeRef, seen: set<NodeRef>, stack: seq<NodeRef>) {
    && (forall r :: r in seen ==> Reaches(id, s, root, r))
    && (forall k :: 0 <= k < |stack| ==> Reaches(id, s, root, stack[k]))
  }

  /** No reference of a seen node is forgotten. */
  ghost predicate Followed(id: nat, s: Inner, seen: set<NodeRef>, stack: seq<NodeRef>) {
    forall r, q :: r in seen && q in References(id, s, r) ==> q in seen || q in stack
  }

  ghost predicate AllReached(id: nat, s: Inner, root: NodeRef, reached: set<NodeRef>) {
    forall q :: q in reached <==> Reaches(id, s, root, q)
  }

  /** The nodes reachable from a frozen root, each counted once, and the template instances among them. The search
      follows every reference, and none is missing. */
  method ReachableStats(id: nat, s: Inner, root: NodeRef) returns (r: Result<(nat, nat), StoreError>)
    requires Invariant(id, s) && Exists(id, s, root)
    ensures exists reached: set<NodeRef> ::
      AllReached(id, s, root, reached) && r == Ok((|reached|, |InstancesIn(id, s, reached)|))
  {
    var visited: set<NodeRef> := {};
    var stack := [root];
    var instances := 0;
    SearchStarts(id, s, root);
    while stack != []
      invariant Searching(id, s, root, visited, stack, instances)
      decreases |AllRefs(id, s) - visited|, |stack|
    {
      var top := stack[|stack| - 1];
      var rest := stack[..|stack| - 1];
      Popped(stack);
      if top in visited {
        SearchSkips(id, s, root, visited, rest, top, instances);
        stack := rest;
      } else {
        TopExists(id, s, root, visited, rest, top, instances);
        var n := NodeFrom(id, s, top).value;
        if n.kind == Instantiate {
          InstanceHasTemplate(id, s, top);
        }
        SearchVisits(id, s, root, visited, rest, top, instances, n);
        instances := if n.kind == Instantiate then instances + 1 else instances;
        visited := visited + {top};
        stack := rest + Targets(id, s, n);
      }
    }
    SearchEnds(id, s, root, visited, instances);
    return Ok((|visited|, instances));
  }

  /** What holds at every point of the search. */
  ghost predicate Searching(id: nat, s: Inner, root: NodeRef, seen: set<NodeRef>, stack: seq<NodeRef>,
      instances: nat) {
    && (root in seen || root in stack)
    && Sighted(id, s, root, seen, stack) && Followed(id, s, seen, stack) && seen <= AllRefs(id, s)
    && instances == |InstancesIn(id, s, seen)|
  }

  lemma SearchStarts(id: nat, s: Inner, root: NodeRef)
    ensures Searching(id, s, root, {}, [root], 0)
  {
    ReachesItself(id, s, root);
  }

  lemma SearchSkips(id: nat, s: Inner, root: NodeRef, seen: set<NodeRef>, rest: seq<NodeRef>, top: NodeRef,
      instances: nat)
    requires Searching(id, s, root, seen, rest + [top], instances) && top in seen
    ensures Searching(id, s, root, seen, rest, instances)
  {
    SkipStep(id, s, root, seen, rest, top);
  }

  lemma TopExists(id: nat, s: Inner, root: NodeRef, seen: set<NodeRef>, rest: seq<NodeRef>, top: NodeRef,
      instances: nat)
    requires Invariant(id, s) && Exists(id, s, root) && Searching(id, s, root, seen, rest + [top], instances)
    ensures Exists(id, s, top)
  {
    assert (rest + [top])[|rest|] == top;
    ReachedExists(id, s, root, top);
  }

  lemma SearchVisits(id: nat, s: Inner, root: NodeRef, seen: set<NodeRef>, rest: seq<NodeRef>, top: NodeRef,
      instances: nat, n: Node)
    requires Searching(id, s, root, seen, rest + [top], instances) && top !in seen
    requires Exists(id, s, top) && n == NodeFrom(id, s, top).value
    ensures Searching(id, s, root, seen + {top}, rest + Targets(id, s, n),
      if n.kind == Instantiate then instances + 1 else instances)
    ensures |AllRefs(id, s) - (seen + {top})| < |AllRefs(id, s) - seen|
  {
    VisitStep(id, s, root, seen, rest, top, Targets(id, s, n));
  }

  lemma SearchEnds(id: nat, s: Inner, root: NodeRef, seen: set<NodeRef>, instances: nat)
    requires Searching(id, s, root, seen, [], instances)
    ensures AllReached(id, s, root, seen) && instances == |InstancesIn(id, s, seen)|
  {
    SearchIsComplete(id, s, root, seen);
  }

  lemma InstanceHasTemplate(id: nat, s: Inner, r: NodeRef)
    requires Invariant(id, s) && Exists(id, s, r) && NodeFrom(id, s, r).value.kind == Instantiate
    ensures NodeFrom(id, s, r).value.payload < |s.instances|
    ensures TemplateFrom(id, s, s.instances[NodeFrom(id, s, r).value.payload].template).Ok?
  {
    var rank: map<NodeRef, nat>, bound: nat :| Ranked(id, s, rank, bound);
    assert NodeOk(id, s, r, rank);
  }

  lemma ReachedExists(id: nat, s: Inner, root: NodeRef, q: NodeRef)
    requires Invariant(id, s) && Exists(id, s, root) && Reaches(id, s, root, q)
    ensures Exists(id, s, q)
  {
    var p := PathTo(id, s, root, q);
    GrowsReflexive(s);
    PathNodeStays(id, s, s, p, |p| - 1);
  }

  lemma GrowsReflexive(s: Inner)
    ensures Grows(s, s)
  {
  }

  lemma Popped(stack: seq<NodeRef>)
    requires stack != []
    ensures stack == stack[..|stack| - 1] + [stack[|stack| - 1]]
  {
  }

  lemma SkipStep(id: nat, s: Inner, root: NodeRef, seen: set<NodeRef>, rest: seq<NodeRef>, top: NodeRef)
    requires Sighted(id, s, root, seen, rest + [top]) && Followed(id, s, seen, rest + [top]) && top in seen
    requires root in seen || root in rest + [top]
    ensures Sighted(id, s, root, seen, rest) && Followed(id, s, seen, rest) && (root in seen || root in rest)
  {
    forall k | 0 <= k < |rest|
      ensures Reaches(id, s, root, rest[k])
    {
      assert (rest + [top])[k] == rest[k];
    }
    forall r, q | r in seen && q in References(id, s, r)
      ensures q in seen || q in rest
    {
      assert q in seen || q in rest + [top];
    }
  }

  lemma VisitStep(id: nat, s: Inner, root: NodeRef, seen: set<NodeRef>, rest: seq<NodeRef>, top: NodeRef,
      targets: seq<NodeRef>)
    requires Sighted(id, s, root, seen, rest + [top]) && Followed(id, s, seen, rest + [top])
    requires seen <= AllRefs(id, s) && top !in seen
    requires Exists(id, s, top) && targets == Targets(id, s, NodeFrom(id, s, top).value)
    requires root in seen || root in rest + [top]
    ensures root in seen + {top} || root in rest + targets
    ensures Sighted(id, s, root, seen + {top}, rest + targets) && Followed(id, s, seen + {top}, rest + targets)
    ensures seen + {top} <= AllRefs(id, s) && |AllRefs(id, s) - (seen + {top})| < |AllRefs(id, s) - seen|
    ensures |InstancesIn(id, s, seen + {top})| == |InstancesIn(id, s, seen)| + if IsInstance(id, s, top) then 1 else 0
  {
    CountStep(id, s, seen, top);
    SightStep(id, s, root, seen, rest, top, targets);
    forall r, q | r in seen + {top} && q in References(id, s, r)
      ensures q in seen + {top} || q in rest + targets
    {
      if r != top {
        assert q in seen || q in rest + [top];
      }
    }
  }

  lemma CountStep(id: nat, s: Inner, seen: set<NodeRef>, top: NodeRef)
    requires seen <= AllRefs(id, s) && top !in seen && Exists(id, s, top)
    ensures seen + {top} <= AllRefs(id, s) && |AllRefs(id, s) - (seen + {top})| < |AllRefs(id, s) - seen|
    ensures |InstancesIn(id, s, seen + {top})| == |InstancesIn(id, s, seen)| + if IsInstance(id, s, top) then 1 else 0
  {
    assert top in AllRefs(id, s);
    OneFewer(AllRefs(id, s), seen, top);
    InstancesStep(id, s, seen, top);
  }

  lemma OneFewer(all: set<NodeRef>, seen: set<NodeRef>, top: NodeRef)
    requires seen <= all && top in all && top !in seen
    ensures seen + {top} <= all && |all - (seen + {top})| < |all - seen|
  {
    assert all - (seen + {top}) == (all - seen) - {top};
  }

  lemma InstancesStep(id: nat, s: Inner, seen: set<NodeRef>, top: NodeRef)
    requires top !in seen
    ensures |InstancesIn(id, s, seen + {top})| == |InstancesIn(id, s, seen)| + if IsInstance(id, s, top) then 1 else 0
  {
    if IsInstance(id, s, top) {
      assert InstancesIn(id, s, seen + {top}) == InstancesIn(id, s, seen) + {top};
    } else {
      assert InstancesIn(id, s, seen + {top}) == InstancesIn(id, s, seen);
    }
  }

  lemma SightStep(id: nat, s: Inner, root: NodeRef, seen: set<NodeRef>, rest: seq<NodeRef>, top: NodeRef,
      targets: seq<NodeRef>)
    requires Sighted(id, s, root, seen, rest + [top])
    requires Exists(id, s, top) && targets == Targets(id, s, NodeFrom(id, s, top).value)
    ensures Sighted(id, s, root, seen + {top}, rest + targets)
  {
    var stack, stack' := rest + [top], rest + targets;
    assert stack[|rest|] == top;
    forall k | 0 <= k < |stack'|
      ensures Reaches(id, s, root, stack'[k])
    {
      if k < |rest| {
        assert stack'[k] == stack[k];
      } else {
        assert stack'[k] in References(id, s, top);
        ReachesOneMore(id, s, root, top, stack'[k]);
      }
    }
  }

  lemma SearchIsComplete(id: nat, s: Inner, root: NodeRef, seen: set<NodeRef>)
    requires root in seen && Sighted(id, s, root, seen, []) && Followed(id, s, seen, [])
    ensures AllReached(id, s, root, seen)
  {
    forall q | Reaches(id, s, root, q)
      ensures q in seen
    {
      var p := PathTo(id, s, root, q);
      ClosedHolds(id, s, seen, p, |p| - 1);
    }
  }

  lemma {:induction false} ClosedHolds(id: nat, s: Inner, seen: set<NodeRef>, p: seq<NodeRef>, k: nat)
    requires Followed(id, s, seen, []) && IsPath(id, s, p) && p[0] in seen && k < |p|
    ensures p[k] in seen
  {
    if k > 0 {
      ClosedHolds(id, s, seen, p, k - 1);
      assert p[k - 1 + 1] in References(id, s, p[k - 1]);
    }
  }

  // ---- the store itself

  predicate IsComposition(kind: NodeKind) {
    kind == AutoSerial || kind == StrictSerial || kind == Parallel
  }

  /** What other threads do while this one holds no lock; refused steps change nothing. */
  function AfterSteps(id: nat, s: Inner, steps: seq<Step>): Inner
    decreases |steps|
  {
    if steps == [] then s else AfterSteps(id, AfterStep(id, s, steps[0]), steps[1..])
  }

  function AfterStep(id: nat, s: Inner, step: Step): Inner {
    if Perform(id, s, step).Ok? then Perform(id, s, step).value else s
  }

  /** Their appends were checked too, at the latest now. */
  ghost predicate FitSteps(id: nat, s: Inner, steps: seq<Step>)
    decreases |steps|
  {
    steps == [] ||
    (&& (steps[0].AppendNode? ==> Fits(id, s, steps[0].segment, steps[0].node))
     && FitSteps(id, AfterStep(id, s, steps[0]), steps[1..]))
  }

  lemma {:induction false} OthersKeepInvariant(id: nat, s: Inner, steps: seq<Step>)
    requires Invariant(id, s) && FitSteps(id, s, steps)
    ensures Invariant(id, AfterSteps(id, s, steps)) && Grows(s, AfterSteps(id, s, steps))
    decreases |steps|
  {
    if steps == [] {
      GrowsReflexive(s);
    } else if Perform(id, s, steps[0]).Ok? {
      var next := Perform(id, s, steps[0]).value;
      PerformKeepsInvariant(id, s, steps[0]);
      PerformGrows(id, s, steps[0]);
      OthersKeepInvariant(id, next, steps[1..]);
      GrowsTransitive(s, next, AfterSteps(id, s, steps));
    } else {
      OthersKeepInvariant(id, s, steps[1..]);
    }
  }

  predicate Open(id: nat, s: Inner, segment: SegmentId) {
    SegmentFrom(id, s, segment).Ok? && !SegmentFrom(id, s, segment).value.frozen
  }

  /** The node is the last of its segment, and nothing else changed. */
  predicate AppendedTo(id: nat, s: Inner, s': Inner, segment: SegmentId, n: Node, r: NodeRef) {
    && segment.store == id && segment.index < |s.segments|
    && s' == WithNode(s, segment.index, n) && r == NewRef(id, s, segment.index)
  }

  function MaskOf(id: nat, s: Inner, r: NodeRef): bv128 {
    if Exists(id, s, r) then NodeFrom(id, s, r).value.mask else 0
  }

  predicate ComposeChecked(id: nat, s: Inner, segment: SegmentId, kind: NodeKind, left: NodeRef, right: NodeRef) {
    && kind in {AutoSerial, StrictSerial, Parallel} && SegmentFrom(id, s, segment).Ok?
    && Exists(id, s, left) && Exists(id, s, right)
    && (InTemplate(id, s, segment) ==> InTemplate(id, s, left.Segment()) && InTemplate(id, s, right.Segment()))
  }

  predicate RawChecked(id: nat, s: Inner, segment: SegmentId, n: Node) {
    Fits(id, s, segment, n) && SegmentFrom(id, s, segment).Ok?
  }

  /** The channels of both children. */
  function BothMasks(left: bv128, right: bv128): bv128 {
    left | right
  }

  predicate Shares(mask: bv128, channels: bv128) {
    mask & channels != 0
  }

  /** The union shares channels with any other mask exactly when one of the two does. */
  ghost predicate Unites(both: bv128, left: bv128, right: bv128) {
    forall channels :: Shares(both, channels) <==> Shares(left, channels) || Shares(right, channels)
  }

  lemma BothMasksShare(left: bv128, right: bv128, channels: bv128)
    ensures Shares(BothMasks(left, right), channels) <==> Shares(left, channels) || Shares(right, channels)
  {
    if Shares(left, channels) {
      LeftShares(left, right, channels);
    } else if Shares(right, channels) {
      RightShares(left, right, channels);
    } else {
      NeitherShares(left, right, channels);
    }
  }

  lemma LeftShares(left: bv128, right: bv128, channels: bv128)
    requires Shares(left, channels)
    ensures Shares(BothMasks(left, right), channels)
  {
  }

  lemma RightShares(left: bv128, right: bv128, channels: bv128)
    requires Shares(right, channels)
    ensures Shares(BothMasks(left, right), channels)
  {
  }

  lemma NeitherShares(left: bv128, right: bv128, channels: bv128)
    requires !Shares(left, channels) && !Shares(right, channels)
    ensures !Shares(BothMasks(left, right), channels)
  {
    UnionDistributes(left, right, channels);
  }

  lemma UnionDistributes(left: bv128, right: bv128, channels: bv128)
    ensures (left | right) & channels == (left & channels) | (right & channels)
  {
  }

  lemma BothMasksUnite(left: bv128, right: bv128)
    ensures Unites(BothMasks(left, right), left, right)
  {
    forall channels
      ensures Shares(BothMasks(left, right), channels) <==> Shares(left, channels) || Shares(right, channels)
    {
      BothMasksShare(left, right, channels);
    }
  }

  lemma ComposedFits(id: nat, s: Inner, segment: SegmentId, n: Node, left: NodeRef, right: NodeRef)
    requires ComposeChecked(id, s, segment, n.kind, left, right) && n.left == Some(left) && n.right == Some(right)
    ensures Fits(id, s, segment, n)
  {
    assert n.Children() == [left, right];
  }

  class ArenaStore {
    const id: nat
    var inner: Inner

    constructor (id: nat)
      ensures this.id == id && inner == EMPTY && Valid()
    {
      this.id, inner := id, EMPTY;
      new;
      EmptyInvariant(id);
    }

    ghost predicate Valid()
      reads this
    {
      Invariant(id, inner)
    }

    /** One atomic step under the write lock. */
    method Write(step: Step) returns (r: Result<(), StoreError>)
      requires Valid() && (step.AppendNode? ==> Fits(id, inner, step.segment, step.node))
      modifies this
      ensures Valid() && Grows(old(inner), inner)
      ensures r.Ok? <==> Perform(id, old(inner), step).Ok?
      ensures inner == if r.Ok? then Perform(id, old(inner), step).value else old(inner)
      ensures r.Err? ==> r.error == Perform(id, old(inner), step).error
    {
      var next := Perform(id, inner, step);
      GrowsReflexive(inner);
      if next.Err? {
        return Err(next.error);
      }
      PerformKeepsInvariant(id, inner, step);
      PerformGrows(id, inner, step);
      inner := next.value;
      return Ok(());
    }

    /** Other threads run while no lock is held. */
    method Interfere(others: seq<Step>)
      requires Valid() && FitSteps(id, inner, others)
      modifies this
      ensures inner == AfterSteps(id, old(inner), others)
      ensures Valid() && Grows(old(inner), inner)
    {
      ghost var start := inner;
      OthersKeepInvariant(id, inner, others);
      var rest := others;
      while rest != []
        invariant Valid() && FitSteps(id, inner, rest)
        invariant AfterSteps(id, inner, rest) == AfterSteps(id, start, others)
      {
        var r := Write(rest[0]);
        rest := rest[1..];
      }
    }

    method CreateSegment(kind: SegmentKind) returns (segment: SegmentId)
      requires Valid()
      modifies this
      ensures Valid() && Grows(old(inner), inner)
      ensures segment == SegmentId(id, |old(inner).segments|)
      ensures SegmentFrom(id, inner, segment) == Ok(Segment(kind, false, []))
    {
      segment := SegmentId(id, |inner.segments|);
      var r := Write(Step.CreateSegment(kind));
    }

    /** Append a node that was checked before; only the frozen mark is looked at again. */
    method Append(segment: SegmentId, n: Node) returns (r: Result<NodeRef, StoreError>)
      requires Valid() && Fits(id, inner, segment, n)
      modifies this
      ensures Valid() && Grows(old(inner), inner)
      ensures r.Ok? <==> Open(id, old(inner), segment)
      ensures r.Ok? ==> AppendedTo(id, old(inner), inner, segment, n, r.value)
      ensures r.Err? ==> inner == old(inner)
    {
      var target := SegmentFrom(id, inner, segment);
      var written := Write(AppendNode(segment, n));
      if written.Err? {
        return Err(written.error);
      }
      return Ok(NodeRef(id, segment.index, |target.value.nodes|));
    }

    method SourceCallNode(segment: SegmentId, expression: nat) returns (r: Result<NodeRef, StoreError>)
      requires Valid()
      modifies this
      ensures Valid() && Grows(old(inner), inner)
      ensures r.Ok? <==> Open(id, old(inner), segment)
      ensures r.Ok? ==>
        AppendedTo(id, old(inner), inner, segment, Node(SourceCall, None, None, expression, 0, expression), r.value)
      ensures r.Err? ==> inner == old(inner)
    {
      r := Append(segment, Node(SourceCall, None, None, expression, 0, expression));
    }

    /** The children of a node in a template segment must be in template segments. */
    method ValidateChildren(target: SegmentId, children: seq<NodeRef>) returns (r: Result<(), StoreError>)
      requires forall k :: 0 <= k < |children| ==> Exists(id, inner, children[k])
      ensures r.Ok? ==> SegmentFrom(id, inner, target).Ok?
      ensures r.Ok? && InTemplate(id, inner, target) ==> forall k :: 0 <= k < |children| ==>
        InTemplate(id, inner, children[k].Segment())
      ensures r.Err? && SegmentFrom(id, inner, target).Ok? ==>
        InTemplate(id, inner, target) && exists k :: 0 <= k < |children| && !InTemplate(id, inner,
          children[k].Segment())
    {
      var segment := SegmentFrom(id, inner, target);
      if segment.Err? {
        return Err(segment.error);
      }
      if segment.value.kind != TemplateSegment {
        return Ok(());
      }
      for k := 0 to |children|
        invariant forall j :: 0 <= j < k ==> InTemplate(id, inner, children[j].Segment())
      {
        if SegmentFrom(id, inner, children[k].Segment()).value.kind != TemplateSegment {
          return Err(TemplateDependsOnProgram);
        }
      }
      return Ok(());
    }

    /** The append of a checked node, after whatever others do while no lock is held. */
    method AppendLater(segment: SegmentId, n: Node, others: seq<Step>) returns (r: Result<NodeRef, StoreError>)
      requires Valid() && FitSteps(id, inner, others) && Fits(id, inner, segment, n)
      modifies this
      ensures Valid() && Grows(old(inner), inner)
      ensures r.Ok? <==> Open(id, AfterSteps(id, old(inner), others), segment)
      ensures r.Ok? ==> AppendedTo(id, AfterSteps(id, old(inner), others), inner, segment, n, r.value)
      ensures r.Err? ==> inner == AfterSteps(id, old(inner), others)
    {
      ghost var s := inner;
      Interfere(others);
      CheckedStaysTrue(id, s, inner, segment, n);
      r := Append(segment, n);
      GrowsTransitive(s, AfterSteps(id, s, others), inner);
    }

    /** What compose checks under the read lock, and the union of the channels. */
    method CheckCompose(segment: SegmentId, kind: NodeKind, left: NodeRef, right: NodeRef)
      returns (r: Result<bv128, StoreError>)
      ensures r.Ok? <==> ComposeChecked(id, inner, segment, kind, left, right)
      ensures r.Ok? ==> r.value == BothMasks(MaskOf(id, inner, left), MaskOf(id, inner, right))
    {
      if !IsComposition(kind) {
        return Err(BadKind);
      }
      var l, q := NodeFrom(id, inner, left), NodeFrom(id, inner, right);
      if l.Err? {
        return Err(l.error);
      }
      if q.Err? {
        return Err(q.error);
      }
      var children := [left, right];
      assert children[0] == left && children[1] == right;
      var checked := ValidateChildren(segment, children);
      if checked.Err? {
        return Err(checked.error);
      }
      return Ok(BothMasks(l.value.mask, q.value.mask));
    }

    /** Checks under the read lock, then whatever others do, then the append: it succeeds exactly when the checks did
        and the segment is still open. */
    method Compose(segment: SegmentId, kind: NodeKind, left: NodeRef, right: NodeRef, provenance: nat,
        others: seq<Step>)
      returns (r: Result<NodeRef, StoreError>)
      requires Valid() && FitSteps(id, inner, others)
      modifies this
      ensures Valid() && Grows(old(inner), inner)
      ensures r.Ok? <==>
        && ComposeChecked(id, old(inner), segment, kind, left, right)
        && Open(id, AfterSteps(id, old(inner), others), segment)
      ensures r.Ok? ==> AppendedTo(id, AfterSteps(id, old(inner), others), inner, segment,
        Node(kind, Some(left), Some(right), 0, BothMasks(MaskOf(id, old(inner), left), MaskOf(id, old(inner), right)),
          provenance), r.value)
      ensures r.Ok? ==> NodeFrom(id, inner, r.value).Ok? && Unites(NodeFrom(id, inner, r.value).value.mask,
        MaskOf(id, old(inner), left), MaskOf(id, old(inner), right))
      ensures r.Err? ==> inner == if ComposeChecked(id, old(inner), segment, kind, left, right)
        then AfterSteps(id, old(inner), others) else old(inner)
    {
      GrowsReflexive(inner);
      var mask := CheckCompose(segment, kind, left, right);
      if mask.Err? {
        return Err(mask.error);
      }
      var n := Node(kind, Some(left), Some(right), 0, mask.value, provenance);
      ComposedFits(id, inner, segment, n, left, right);
      BothMasksUnite(MaskOf(id, inner, left), MaskOf(id, inner, right));
      r := AppendLater(segment, n, others);
    }

    /** The checks of a node under the read lock: its shape, its children, and its segment. */
    method CheckRaw(segment: SegmentId, n: Node) returns (r: Result<(), StoreError>)
      ensures r.Ok? <==> RawChecked(id, inner, segment, n)
    {
      if n.kind == Instantiate {
        return Err(BadKind);
      }
      if !ShapeOk(n.kind, n.left, n.right) {
        return Err(BadShape);
      }
      var children := n.Children();
      for k := 0 to |children|
        invariant forall j :: 0 <= j < k ==> Exists(id, inner, children[j])
      {
        var child := NodeFrom(id, inner, children[k]);
        if child.Err? {
          return Err(child.error);
        }
      }
      r := ValidateChildren(segment, children);
    }

    /** Any node with the children its kind demands, with whatever others do between check and append. */
    method AppendRaw(segment: SegmentId, n: Node, others: seq<Step>) returns (r: Result<NodeRef, StoreError>)
      requires Valid() && FitSteps(id, inner, others)
      modifies this
      ensures Valid() && Grows(old(inner), inner)
      ensures r.Ok? <==> RawChecked(id, old(inner), segment, n) && Open(id, AfterSteps(id, old(inner), others), segment)
      ensures r.Ok? ==> AppendedTo(id, AfterSteps(id, old(inner), others), inner, segment, n, r.value)
      ensures r.Err? ==> inner == if RawChecked(id, old(inner), segment, n) then AfterSteps(id, old(inner), others)
        else old(inner)
    {
      GrowsReflexive(inner);
      var checked := CheckRaw(segment, n);
      if checked.Err? {
        return Err(checked.error);
      }
      r := AppendLater(segment, n, others);
    }
  }
}
