/** Template plans: compositions recorded before a channel is known, lowered once into a
    published template and instantiated from there. */
module TemplatePlans {
  import opened Common
  import opened MorphismTree
  import opened MorphismArena
  import opened MorphismBuilder
  import opened MorphismCollection
  import opened Written

  datatype PlanKind =
    | OperationPlan(operation: string, arguments: seq<ValueId>)
    | DefinitionPlan(definition: string, arguments: seq<ValueId>)
    | WaitPlan(duration: ValueId, semantics: WaitSemantics)
    | SerialPlan(children: seq<nat>, boundaries: seq<BoundaryPolicy>)
    | ParallelPlan(children: seq<nat>)

  datatype Plan = Plan(kind: PlanKind, provenance: nat)

  function PlanChildren(plan: Plan): seq<nat> {
    match plan.kind
    case SerialPlan(children, _) => children
    case ParallelPlan(children) => children
    case _ => []
  }

  /** Plans refer to earlier plans only, and compositions have enough operands. */
  predicate PlanOk(plan: Plan, i: nat) {
    && Below(PlanChildren(plan), i)
    && match plan.kind
       case SerialPlan(children, boundaries) => |children| >= 2 && |boundaries| + 1 == |children|
       case ParallelPlan(children) => |children| >= 2
       case _ => true
  }

  predicate PlansOk(plans: seq<Plan>) {
    forall i :: 0 <= i < |plans| ==> PlanOk(plans[i], i)
  }

  /** The composition a plan stands for, bracketed as it was written. */
  ghost function PlanTree(plans: seq<Plan>, i: nat): Tree
    requires PlansOk(plans) && i < |plans|
    decreases i, 1
  {
    var p := plans[i].provenance;
    match plans[i].kind
    case OperationPlan(operation, arguments) => LeafTree(AtomicLeaf(operation, arguments), p)
    case DefinitionPlan(definition, arguments) => LeafTree(DefinitionLeaf(definition, arguments), p)
    case WaitPlan(duration, semantics) => LeafTree(WaitLeaf(duration, semantics), p)
    case SerialPlan(_, boundaries) => SerialTree(PlanTrees(plans, i), boundaries, p)
    case ParallelPlan(_) => ParallelTree(PlanTrees(plans, i), p)
  }

  ghost function PlanTrees(plans: seq<Plan>, i: nat): (ts: seq<Tree>)
    requires PlansOk(plans) && i < |plans|
    ensures |ts| == |PlanChildren(plans[i])|
    ensures forall k :: 0 <= k < |ts| ==> ts[k] == PlanTree(plans, PlanChildren(plans[i])[k])
    decreases i, 0
  {
    var ids := PlanChildren(plans[i]);
    assert PlanOk(plans[i], i);
    seq(|ids|, k requires 0 <= k < |ids| => PlanTree(plans, ids[k]))
  }

  lemma {:induction false} PlanTreeShaped(plans: seq<Plan>, i: nat)
    requires PlansOk(plans) && i < |plans|
    ensures Shaped(PlanTree(plans, i))
    decreases i
  {
    assert PlanOk(plans[i], i);
    var ids := PlanChildren(plans[i]);
    forall k | 0 <= k < |ids| ensures Shaped(PlanTree(plans, ids[k])) {
      PlanTreeShaped(plans, ids[k]);
    }
    assert forall c | c in PlanTrees(plans, i) :: Shaped(c);
  }

  /** Recording further plans changes no earlier one. */
  lemma {:induction false} PlanTreeStable(plans: seq<Plan>, more: seq<Plan>, i: nat)
    requires PlansOk(plans) && PlansOk(more) && plans <= more && i < |plans|
    ensures PlanTree(more, i) == PlanTree(plans, i)
    decreases i
  {
    assert PlanOk(plans[i], i);
    var ids := PlanChildren(plans[i]);
    forall k | 0 <= k < |ids| ensures PlanTree(more, ids[k]) == PlanTree(plans, ids[k]) {
      PlanTreeStable(plans, more, ids[k]);
    }
    assert PlanTrees(more, i) == PlanTrees(plans, i);
  }

  // ---- the text of a plan

  /** What a plan says, read off the plans themselves. */
  ghost function PlanText(plans: seq<Plan>, i: nat): seq<Token>
    requires PlansOk(plans) && i < |plans|
    decreases i, 1, 0
  {
    assert PlanOk(plans[i], i);
    match plans[i].kind
    case OperationPlan(operation, arguments) => [Passed(AtomicLeaf(operation, arguments))]
    case DefinitionPlan(definition, arguments) => [Passed(DefinitionLeaf(definition, arguments))]
    case WaitPlan(duration, semantics) => [Passed(WaitLeaf(duration, semantics))]
    case SerialPlan(children, _) => OperandsText(plans, i, |children|)
    case ParallelPlan(children) => OperandsText(plans, i, |children|)
  }

  /** The first n operands of a plan, with what separates them. */
  ghost function OperandsText(plans: seq<Plan>, i: nat, n: nat): seq<Token>
    requires PlansOk(plans) && i < |plans| && 0 < n <= |PlanChildren(plans[i])|
    decreases i, 0, n
  {
    assert PlanOk(plans[i], i);
    var last := PlanText(plans, PlanChildren(plans[i])[n - 1]);
    if n == 1 then last
    else if plans[i].kind.SerialPlan? then
      OperandsText(plans, i, n - 1) + [Boundary(plans[i].kind.boundaries[n - 2])] + last
    else OperandsText(plans, i, n - 1) + [Beside] + last
  }

  /** The tree of a plan says what the plan says. */
  lemma {:induction false} PlanTreeText(plans: seq<Plan>, i: nat)
    requires PlansOk(plans) && i < |plans|
    ensures Shaped(PlanTree(plans, i)) && Text(PlanTree(plans, i)) == PlanText(plans, i)
    decreases i, 1, 0
  {
    assert PlanOk(plans[i], i);
    PlanTreeShaped(plans, i);
    match plans[i].kind
    case SerialPlan(children, boundaries) =>
      SerialPlanText(plans, i, |children|);
      WholeSerialText(PlanTrees(plans, i), boundaries);
    case ParallelPlan(children) =>
      ParallelPlanText(plans, i, |children|);
      assert PlanTrees(plans, i)[..|children|] == PlanTrees(plans, i);
    case _ =>
  }

  lemma WholeSerialText(ts: seq<Tree>, bs: seq<BoundaryPolicy>)
    requires |bs| == |ts| - 1 && forall c | c in ts :: Shaped(c)
    ensures SerialText(ts[..|ts|], bs[..|ts| - 1]) == SerialText(ts, bs)
  {
    assert ts[..|ts|] == ts && bs[..|ts| - 1] == bs;
  }

  lemma {:induction false} SerialPlanText(plans: seq<Plan>, i: nat, n: nat)
    requires PlansOk(plans) && i < |plans| && plans[i].kind.SerialPlan? && 0 < n <= |PlanChildren(plans[i])|
    ensures |PlanTrees(plans, i)| == |plans[i].kind.boundaries| + 1 && forall c | c in PlanTrees(plans, i) :: Shaped(c)
    ensures SerialText(PlanTrees(plans, i)[..n], plans[i].kind.boundaries[..n - 1]) == OperandsText(plans, i, n)
    decreases i, 0, n
  {
    assert PlanOk(plans[i], i);
    OperandsShaped(plans, i);
    PlanTreeText(plans, PlanChildren(plans[i])[n - 1]);
    if n > 1 {
      SerialPlanText(plans, i, n - 1);
      SerialTextTake(PlanTrees(plans, i), plans[i].kind.boundaries, n);
    }
  }

  lemma {:induction false} ParallelPlanText(plans: seq<Plan>, i: nat, n: nat)
    requires PlansOk(plans) && i < |plans| && plans[i].kind.ParallelPlan? && 0 < n <= |PlanChildren(plans[i])|
    ensures forall c | c in PlanTrees(plans, i) :: Shaped(c)
    ensures ParallelText(PlanTrees(plans, i)[..n]) == OperandsText(plans, i, n)
    decreases i, 0, n
  {
    assert PlanOk(plans[i], i);
    OperandsShaped(plans, i);
    PlanTreeText(plans, PlanChildren(plans[i])[n - 1]);
    if n > 1 {
      ParallelPlanText(plans, i, n - 1);
      ParallelTextTake(PlanTrees(plans, i), n);
    }
  }

  lemma OperandsShaped(plans: seq<Plan>, i: nat)
    requires PlansOk(plans) && i < |plans|
    ensures forall c | c in PlanTrees(plans, i) :: Shaped(c)
  {
    assert PlanOk(plans[i], i);
    var ids := PlanChildren(plans[i]);
    forall k | 0 <= k < |ids|
      ensures Shaped(PlanTree(plans, ids[k]))
    {
      PlanTreeShaped(plans, ids[k]);
    }
  }

  /** The tree says what the plan says, on the channel. */
  ghost predicate SaysPlan(plans: seq<Plan>, i: nat, channel: string, t: Tree)
    requires PlansOk(plans) && i < |plans|
  {
    Shaped(t) && Text(t) == [InstanceOpens(channel)] + PlanText(plans, i) + [Closes]
  }

  /** Flattened and put on a channel, a plan still says what it says. */
  lemma InstanceSaysPlan(plans: seq<Plan>, i: nat, channel: string, provenance: nat)
    requires PlansOk(plans) && i < |plans|
    ensures SaysPlan(plans, i, channel, InstanceTree(channel, FlatPlan(plans, i), provenance))
  {
    PlanTreeText(plans, i);
    FlatteningKeepsText(PlanTree(plans, i));
  }

  /** What lowering a plan must produce. */
  ghost function FlatPlan(plans: seq<Plan>, i: nat): Tree
    requires PlansOk(plans) && i < |plans|
  {
    PlanTreeShaped(plans, i);
    Normalize(PlanTree(plans, i))
  }

  /** Every memoised template means what a fresh lowering of its plan would mean. */
  ghost predicate PublishedOk(plans: seq<Plan>, published: seq<Option<nat>>, a: Arena)
    requires PlansOk(plans) && WellFormed(a)
  {
    |published| <= |plans| &&
    forall k :: 0 <= k < |published| && published[k].Some? ==>
      published[k].value < |a.templates| && Unfold(a, a.templates[published[k].value]) == FlatPlan(plans, k)
  }

  lemma PublishedStable(plans: seq<Plan>, more: seq<Plan>, published: seq<Option<nat>>, a: Arena, b: Arena)
    requires PlansOk(plans) && PlansOk(more) && plans <= more && WellFormed(a) && WellFormed(b) && Extends(a, b)
    requires PublishedOk(plans, published, a)
    ensures PublishedOk(more, published, b)
  {
    forall k | 0 <= k < |published| && published[k].Some?
      ensures Unfold(b, b.templates[published[k].value]) == FlatPlan(more, k)
    {
      UnfoldStable(a, b, a.templates[published[k].value]);
      PlanTreeStable(plans, more, k);
    }
  }

  /** The plans below `n` that are marked have been lowered to nodes with the right meaning. */
  ghost predicate LoweredOk(plans: seq<Plan>, reachable: seq<bool>, lowered: seq<Option<nat>>, n: nat, a: Arena)
    requires PlansOk(plans) && WellFormed(a)
  {
    n <= |reachable| == |lowered| <= |plans| &&
    forall k :: 0 <= k < n && reachable[k] ==>
      lowered[k].Some? && lowered[k].value < |a.nodes| && Unfold(a, lowered[k].value) == FlatPlan(plans, k)
  }

  lemma LoweredStable(plans: seq<Plan>, reachable: seq<bool>, lowered: seq<Option<nat>>, n: nat, a: Arena, b: Arena)
    requires PlansOk(plans) && WellFormed(a) && WellFormed(b) && Extends(a, b)
    requires LoweredOk(plans, reachable, lowered, n, a)
    ensures LoweredOk(plans, reachable, lowered, n, b)
  {
    forall k | 0 <= k < n && reachable[k] ensures Unfold(b, lowered[k].value) == FlatPlan(plans, k) {
      UnfoldStable(a, b, lowered[k].value);
    }
  }

  /** The operands of this plan are marked or about to be. */
  ghost predicate OperandsMarked(plans: seq<Plan>, reachable: seq<bool>, pending: seq<nat>, i: nat)
    requires i < |plans|
  {
    forall c | c in PlanChildren(plans[i]) :: c < |reachable| && (reachable[c] || c in pending)
  }

  /** The operands of a marked plan are marked. */
  ghost predicate ClosedPlans(plans: seq<Plan>, reachable: seq<bool>, pending: seq<nat>) {
    && |reachable| <= |plans|
    && forall i {:trigger OperandsMarked(plans, reachable, pending, i)} ::
      0 <= i < |reachable| && reachable[i] ==> OperandsMarked(plans, reachable, pending, i)
  }

  lemma MarkPlan(plans: seq<Plan>, marks: seq<bool>, pending: seq<nat>, plan: nat)
    requires PlansOk(plans) && plan < |marks| && ClosedPlans(plans, marks, pending + [plan])
    ensures marks[plan] ==> ClosedPlans(plans, marks, pending)
    ensures ClosedPlans(plans, marks[plan := true], pending + PlanChildren(plans[plan]))
    ensures Below(PlanChildren(plans[plan]), plan)
  {
    assert PlanOk(plans[plan], plan);
    forall i | 0 <= i < |marks| && marks[i]
      ensures marks[plan] ==> OperandsMarked(plans, marks, pending, i)
      ensures OperandsMarked(plans, marks[plan := true], pending + PlanChildren(plans[plan]), i)
    {
      assert OperandsMarked(plans, marks, pending + [plan], i);
    }
    assert OperandsMarked(plans, marks[plan := true], pending + PlanChildren(plans[plan]), plan);
  }

  method MarkPlans(plans: seq<Plan>, root: nat) returns (marks: seq<bool>)
    requires PlansOk(plans) && root < |plans|
    ensures |marks| == root + 1 && marks[root] && ClosedPlans(plans, marks, [])
  {
    var reachable := new bool[root + 1](_ => false);
    var pending := [root];
    while pending != []
      invariant Below(pending, root + 1)
      invariant reachable[root] || root in pending
      invariant ClosedPlans(plans, reachable[..], pending)
      decreases Unmarked(reachable[..]), |pending|
    {
      ghost var before := pending;
      var plan := pending[|pending| - 1];
      pending := pending[..|pending| - 1];
      assert before == pending + [plan];
      MarkPlan(plans, reachable[..], pending, plan);
      if reachable[plan] {
        continue;
      }
      ghost var was := reachable[..];
      reachable[plan] := true;
      assert reachable[..] == was[plan := true];
      FewerUnmarked(was, plan);
      assert Unmarked(reachable[..]) < Unmarked(was);
      pending := pending + PlanChildren(plans[plan]);
    }
    marks := reachable[..];
  }

  /** Lower one plan whose operands are lowered; the lookup of an operand never misses. */
  method LowerPlan(plans: seq<Plan>, reachable: seq<bool>, lowered: seq<Option<nat>>, index: nat,
      builder: MorphismArenaBuilder)
    returns (node: nat)
    requires PlansOk(plans) && builder.Valid() && ClosedPlans(plans, reachable, [])
    requires index < |reachable| && reachable[index] && LoweredOk(plans, reachable, lowered, index, builder.Snapshot())
    modifies builder
    ensures builder.Valid() && GrownByNode(old(builder.Snapshot()), builder.Snapshot(), node)
    ensures Unfold(builder.Snapshot(), node) == FlatPlan(plans, index)
  {
    var plan := plans[index];
    assert PlanOk(plan, index);
    PlanTreeShaped(plans, index);
    match plan.kind {
      case OperationPlan(operation, arguments) => node := builder.Atomic(operation, arguments, plan.provenance);
      case DefinitionPlan(definition, arguments) => node := builder.DefinitionRef(definition, arguments,
        plan.provenance);
      case WaitPlan(duration, semantics) =>
        if semantics == LogicalDisplacement {
          node := builder.LogicalShift(duration, plan.provenance);
        } else {
          node := builder.PhysicalWait(duration, plan.provenance);
        }
      case SerialPlan(ids, boundaries) =>
        var children := LoweredChildren(plans, reachable, lowered, index, builder);
        node := builder.Serial(children, boundaries, plan.provenance);
      case ParallelPlan(ids) =>
        var children := LoweredChildren(plans, reachable, lowered, index, builder);
        node := builder.Parallel(children, plan.provenance);
    }
  }

  method LoweredChildren(plans: seq<Plan>, reachable: seq<bool>, lowered: seq<Option<nat>>, index: nat,
      builder: MorphismArenaBuilder)
    returns (children: seq<nat>)
    requires PlansOk(plans) && builder.Valid() && ClosedPlans(plans, reachable, [])
    requires index < |reachable| && reachable[index] && LoweredOk(plans, reachable, lowered, index, builder.Snapshot())
    ensures |children| == |PlanChildren(plans[index])| && Below(children, |builder.nodes|)
    ensures forall c | c in PlanTrees(plans, index) :: Shaped(c)
    ensures UnfoldAll(builder.Snapshot(), children) == NormalizeAll(PlanTrees(plans, index))
  {
    var ids := PlanChildren(plans[index]);
    assert PlanOk(plans[index], index);
    assert OperandsMarked(plans, reachable, [], index);
    children := seq(|ids|, k requires 0 <= k < |ids| => lowered[ids[k]].value);
    forall k | 0 <= k < |ids| ensures Shaped(PlanTrees(plans, index)[k]) {
      PlanTreeShaped(plans, ids[k]);
    }
  }

  /** Lower a plan and publish it. */
  method PublishPlan(root: nat, plans: seq<Plan>, published: seq<Option<nat>>, builder: MorphismArenaBuilder)
    returns (template: nat)
    requires PlansOk(plans) && root < |published| && builder.Valid()
    requires PublishedOk(plans, published, builder.Snapshot())
    modifies builder
    ensures builder.Valid() && Extends(old(builder.Snapshot()), builder.Snapshot()) && template < |builder.templates|
    ensures PublishedOk(plans, published[root := Some(template)], builder.Snapshot())
  {
    ghost var start := builder.Snapshot();
    var body := LowerTemplate(root, plans, builder);
    ghost var lowered := builder.Snapshot();
    PublishedStable(plans, plans, published, start, lowered);
    template := builder.PublishTemplate(body);
    PublishedStable(plans, plans, published, lowered, builder.Snapshot());
    UnfoldStable(lowered, builder.Snapshot(), body);
  }

  /** Instantiate a plan on a channel, lowering and publishing it the first time. */
  method InstantiateTemplate(root: nat, channel: string, plans: seq<Plan>, published: seq<Option<nat>>,
      builder: MorphismArenaBuilder)
    returns (node: nat, published': seq<Option<nat>>)
    requires PlansOk(plans) && root < |plans| && builder.Valid() && PublishedOk(plans, published, builder.Snapshot())
    modifies builder
    ensures builder.Valid() && Extends(old(builder.Snapshot()), builder.Snapshot()) && node < |builder.nodes|
    ensures PublishedOk(plans, published', builder.Snapshot()) && root < |published'| && published'[root].Some?
    ensures Unfold(builder.Snapshot(), node) == InstanceTree(channel, FlatPlan(plans, root), plans[root].provenance)
    ensures SaysPlan(plans, root, channel, Unfold(builder.Snapshot(), node))
  {
    published' := if |published| < |plans| then published + seq(|plans| - |published|, _ => None) else published;
    if published'[root].None? {
      var template := PublishPlan(root, plans, published', builder);
      published' := published'[root := Some(template)];
    }
    ghost var before := builder.Snapshot();
    node := builder.Instantiate(published'[root].value, channel, plans[root].provenance);
    PublishedStable(plans, plans, published', before, builder.Snapshot());
    InstanceSaysPlan(plans, root, channel, plans[root].provenance);
  }

  /** Lower the plans the root needs, in index order. */
  method LowerTemplate(root: nat, plans: seq<Plan>, builder: MorphismArenaBuilder) returns (body: nat)
    requires PlansOk(plans) && root < |plans| && builder.Valid()
    modifies builder
    ensures builder.Valid() && Extends(old(builder.Snapshot()), builder.Snapshot())
    ensures builder.templates == old(builder.templates)
    ensures body < |builder.nodes| && Unfold(builder.Snapshot(), body) == FlatPlan(plans, root)
  {
    ghost var start := builder.Snapshot();
    var marks := MarkPlans(plans, root);
    var lowered: seq<Option<nat>> := seq(root + 1, _ => None);
    for index := 0 to root + 1
      invariant builder.Valid() && Extends(start, builder.Snapshot()) && builder.templates == start.templates
      invariant LoweredOk(plans, marks, lowered, index, builder.Snapshot())
    {
      if marks[index] {
        ghost var before := builder.Snapshot();
        var id := LowerPlan(plans, marks, lowered, index, builder);
        LoweredStable(plans, marks, lowered, index, before, builder.Snapshot());
        lowered := lowered[index := Some(id)];
      }
    }
    body := lowered[root].value;
  }

  // ---- composing lowered values

  datatype Binding = Binding(channel: string, template: nat)

  datatype LoweredValue =
    | MorphismValue(node: nat)
    | TemplateValue(template: nat)
    | BindingsValue(bindings: seq<Binding>)
    | AggregateValue(values: seq<LoweredValue>)
    | OtherValue

  datatype Composition = AutoSerialOp | StrictSerialOp | ParallelOp

  /** An aggregate of fewer than two values breaks the builder's demand for two operands. */
  datatype LoweringError = EmptyBindings | UnboundTemplate | OperandPanic

  const GLOBAL_SYNC := "catseq.hardware.sync.global_sync"

  /** A value refers to existing nodes and plans. */
  predicate ValueOk(plans: seq<Plan>, nodeCount: nat, v: LoweredValue) {
    match v
    case MorphismValue(node) => node < nodeCount
    case TemplateValue(template) => template < |plans|
    case BindingsValue(bindings) => forall k :: 0 <= k < |bindings| ==> bindings[k].template < |plans|
    case AggregateValue(values) => forall k :: 0 <= k < |values| ==> ValueOk(plans, nodeCount, values[k])
    case OtherValue => true
  }

  ghost function InstanceOf(plans: seq<Plan>, b: Binding): Tree
    requires PlansOk(plans) && b.template < |plans|
  {
    InstanceTree(b.channel, FlatPlan(plans, b.template), plans[b.template].provenance)
  }

  ghost function InstancesOf(plans: seq<Plan>, bindings: seq<Binding>): (ts: seq<Tree>)
    requires PlansOk(plans) && forall k :: 0 <= k < |bindings| ==> bindings[k].template < |plans|
    ensures |ts| == |bindings|
  {
    seq(|bindings|, k requires 0 <= k < |bindings| => InstanceOf(plans, bindings[k]))
  }

  /** The Morphism a value stands for where one is required, or why there is none.
      An unbound template is accepted only when it is the global sync. */
  ghost function ValueTree(plans: seq<Plan>, a: Arena, v: LoweredValue, provenance: nat): Result<Tree, LoweringError>
    requires PlansOk(plans) && WellFormed(a) && ValueOk(plans, |a.nodes|, v)
    decreases v, 1
  {
    match v
    case MorphismValue(node) => Ok(Unfold(a, node))
    case TemplateValue(t) =>
      if plans[t].kind.OperationPlan? && plans[t].kind.operation == GLOBAL_SYNC then Ok(PlanTree(plans, t))
        else Err(UnboundTemplate)
    case BindingsValue(bindings) =>
      if bindings == [] then Err(EmptyBindings)
      else if |bindings| == 1 then Ok(InstanceOf(plans, bindings[0]))
      else Ok(ParallelTree(InstancesOf(plans, bindings), provenance))
    case AggregateValue(values) =>
      var trees := ValueTrees(plans, a, values, provenance);
      if trees.Err? then Err(trees.error)
      else if |values| < 2 then Err(OperandPanic)
      else Ok(FlattenParallel(trees.value, provenance))
    case OtherValue => Err(UnboundTemplate)
  }

  /** The Morphisms of a list of values, or the first failure among them. */
  ghost function ValueTrees(plans: seq<Plan>, a: Arena, values: seq<LoweredValue>, provenance: nat)
    : (r: Result<seq<Tree>, LoweringError>)
    requires PlansOk(plans) && WellFormed(a)
    requires forall k :: 0 <= k < |values| ==> ValueOk(plans, |a.nodes|, values[k])
    ensures r.Ok? ==> |r.value| == |values|
    decreases values, 0
  {
    if values == [] then Ok([])
    else
      var before := ValueTrees(plans, a, values[..|values| - 1], provenance);
      if before.Err? then before
      else
        var last := ValueTree(plans, a, values[|values| - 1], provenance);
        if last.Err? then Err(last.error) else Ok(before.value + [last.value])
  }

  /** Applying a composition operator to two trees, as it is written. */
  function Compose(op: Composition, left: Tree, right: Tree, provenance: nat): Tree {
    match op
    case AutoSerialOp => SerialTree([left, right], [Auto], provenance)
    case StrictSerialOp => SerialTree([left, right], [Strict], provenance)
    case ParallelOp => ParallelTree([left, right], provenance)
  }

  /** The tree is the composition of two flat operands. */
  predicate ComposedAs(op: Composition, left: Tree, right: Tree, provenance: nat, t: Tree) {
    && (op == AutoSerialOp ==> t == FlattenSerial([left, right], [Auto], provenance))
    && (op == StrictSerialOp ==> t == FlattenSerial([left, right], [Strict], provenance))
    && (op == ParallelOp ==> t == FlattenParallel([left, right], provenance))
  }

  /** Composing flat forms is the flat form of the composition as written. */
  lemma ComposeFlatIsNormal(op: Composition, left: Tree, right: Tree, provenance: nat, t: Tree)
    requires Shaped(left) && Shaped(right) && ComposedAs(op, Normalize(left), Normalize(right), provenance, t)
    ensures Shaped(Compose(op, left, right, provenance)) && t == Normalize(Compose(op, left, right, provenance))
  {
    PairIsShaped(op, left, right, provenance);
    NormalPair(left, right);
  }

  lemma PairIsShaped(op: Composition, left: Tree, right: Tree, provenance: nat)
    requires Shaped(left) && Shaped(right)
    ensures Shaped(Compose(op, left, right, provenance))
  {
  }

  lemma NormalPair(left: Tree, right: Tree)
    requires Shaped(left) && Shaped(right)
    ensures forall c | c in [left, right] :: Shaped(c)
    ensures NormalizeAll([left, right]) == [Normalize(left), Normalize(right)]
  {
  }

  method InstantiateAll(bindings: seq<Binding>, plans: seq<Plan>, published: seq<Option<nat>>,
      builder: MorphismArenaBuilder)
    returns (children: seq<nat>, published': seq<Option<nat>>)
    requires PlansOk(plans) && builder.Valid() && PublishedOk(plans, published, builder.Snapshot())
    requires forall k :: 0 <= k < |bindings| ==> bindings[k].template < |plans|
    modifies builder
    ensures builder.Valid() && Extends(old(builder.Snapshot()), builder.Snapshot())
    ensures PublishedOk(plans, published', builder.Snapshot())
    ensures |children| == |bindings| && Below(children, |builder.nodes|)
    ensures UnfoldAll(builder.Snapshot(), children) == InstancesOf(plans, bindings)
  {
    ghost var start := builder.Snapshot();
    published' := published;
    children := [];
    for k := 0 to |bindings|
      invariant builder.Valid() && Extends(start, builder.Snapshot())
      invariant PublishedOk(plans, published', builder.Snapshot())
      invariant InstancesBuilt(plans, bindings, k, builder.Snapshot(), children)
    {
      ghost var before := builder.Snapshot();
      var node;
      node, published' := InstantiateTemplate(bindings[k].template, bindings[k].channel, plans, published', builder);
      ExtendsIsTransitive(start, before, builder.Snapshot());
      OneMoreInstance(plans, bindings, k, before, builder.Snapshot(), children, node);
      children := children + [node];
    }
  }

  ghost predicate InstancesBuilt(plans: seq<Plan>, bindings: seq<Binding>, n: nat, a: Arena, children: seq<nat>)
    requires PlansOk(plans) && WellFormed(a) && forall k :: 0 <= k < |bindings| ==> bindings[k].template < |plans|
  {
    n <= |bindings| && |children| == n && Below(children, |a.nodes|) &&
    forall j :: 0 <= j < n ==> Unfold(a, children[j]) == InstanceOf(plans, bindings[j])
  }

  lemma OneMoreInstance(plans: seq<Plan>, bindings: seq<Binding>, n: nat, a: Arena, b: Arena, children: seq<nat>,
      node: nat)
    requires PlansOk(plans) && WellFormed(a) && WellFormed(b) && Extends(a, b)
    requires forall k :: 0 <= k < |bindings| ==> bindings[k].template < |plans|
    requires InstancesBuilt(plans, bindings, n, a, children)
    requires n < |bindings| && node < |b.nodes| && Unfold(b, node) == InstanceOf(plans, bindings[n])
    ensures InstancesBuilt(plans, bindings, n + 1, b, children + [node])
  {
    forall j | 0 <= j < n ensures Unfold(b, children[j]) == InstanceOf(plans, bindings[j]) {
      UnfoldStable(a, b, children[j]);
    }
  }

  /** The template of the binding, flattened, on the channel of the binding. */
  ghost predicate IsBound(plans: seq<Plan>, b: Binding, t: Tree)
    requires PlansOk(plans) && b.template < |plans|
  {
    && t.InstanceTree? && t.channel == b.channel && t.provenance == plans[b.template].provenance
    && t.body == FlatPlan(plans, b.template)
  }

  /** One binding by itself, or several beside each other in their order. */
  ghost predicate AllBound(plans: seq<Plan>, bindings: seq<Binding>, provenance: nat, t: Tree)
    requires PlansOk(plans) && forall k :: 0 <= k < |bindings| ==> bindings[k].template < |plans|
  {
    && bindings != []
    && (|bindings| == 1 ==> IsBound(plans, bindings[0], t))
    && (|bindings| > 1 ==> t.ParallelTree? && t.provenance == provenance && |t.children| == |bindings|)
    && (|bindings| > 1 ==> forall k :: 0 <= k < |bindings| ==> IsBound(plans, bindings[k], t.children[k]))
  }

  /** Bindings have a tree exactly when there are some. */
  ghost predicate BindingsMean(plans: seq<Plan>, a: Arena, bindings: seq<Binding>, provenance: nat,
      r: Result<nat, LoweringError>)
    requires PlansOk(plans) && WellFormed(a) && forall k :: 0 <= k < |bindings| ==> bindings[k].template < |plans|
  {
    if bindings == [] then r == Err(EmptyBindings)
    else r.Ok? && r.value < |a.nodes| && AllBound(plans, bindings, provenance, Unfold(a, r.value))
  }

  method MaterializeBindings(bindings: seq<Binding>, plans: seq<Plan>, published: seq<Option<nat>>,
      builder: MorphismArenaBuilder, provenance: nat)
    returns (r: Result<nat, LoweringError>, published': seq<Option<nat>>)
    requires PlansOk(plans) && builder.Valid() && PublishedOk(plans, published, builder.Snapshot())
    requires ValueOk(plans, |builder.nodes|, BindingsValue(bindings))
    modifies builder
    ensures builder.Valid() && Extends(old(builder.Snapshot()), builder.Snapshot())
    ensures PublishedOk(plans, published', builder.Snapshot())
    ensures Materialized(plans, builder.Snapshot(), BindingsValue(bindings), provenance, r)
    ensures BindingsMean(plans, builder.Snapshot(), bindings, provenance, r)
  {
    var children;
    children, published' := InstantiateAll(bindings, plans, published, builder);
    ghost var ts := InstancesOf(plans, bindings);
    if |children| == 0 {
      r := Err(EmptyBindings);
    } else if |children| == 1 {
      assert UnfoldAll(builder.Snapshot(), children)[0] == ts[0];
      r := Ok(children[0]);
    } else {
      ghost var before := builder.Snapshot();
      var node := SideBySide(children, ts, builder, provenance);
      PublishedStable(plans, plans, published', before, builder.Snapshot());
      r := Ok(node);
    }
  }

  /** Instances beside each other; none of them is a composition to be spliced. */
  method SideBySide(children: seq<nat>, ghost ts: seq<Tree>, builder: MorphismArenaBuilder, provenance: nat)
    returns (node: nat)
    requires builder.Valid() && |children| >= 2 && Below(children, |builder.nodes|)
    requires UnfoldAll(builder.Snapshot(), children) == ts && forall t | t in ts :: !t.ParallelTree?
    modifies builder
    ensures builder.Valid() && GrownByNode(old(builder.Snapshot()), builder.Snapshot(), node)
    ensures Unfold(builder.Snapshot(), node) == ParallelTree(ts, provenance)
  {
    node := builder.Parallel(children, provenance);
    FlatBranchesUnchanged(ts);
  }

  /** The outcome of turning a value into a node agrees with the value's meaning. */
  ghost predicate Materialized(plans: seq<Plan>, a: Arena, v: LoweredValue, provenance: nat, r: Result<nat,
      LoweringError>)
    requires PlansOk(plans) && WellFormed(a) && ValueOk(plans, |a.nodes|, v)
  {
    match r
    case Err(e) => ValueTree(plans, a, v, provenance) == Err(e)
    case Ok(node) => node < |a.nodes| && ValueTree(plans, a, v, provenance) == Ok(Unfold(a, node))
  }

  /** One value alone in an aggregate has no Morphism, although the value itself has one. */
  lemma AggregateOfOneFails(plans: seq<Plan>, a: Arena, v: LoweredValue, provenance: nat)
    requires PlansOk(plans) && WellFormed(a) && ValueOk(plans, |a.nodes|, v) && ValueTree(plans, a, v, provenance).Ok?
    ensures ValueOk(plans, |a.nodes|, AggregateValue([v]))
    ensures ValueTree(plans, a, AggregateValue([v]), provenance) == Err(OperandPanic)
  {
    assert [v][..0] == [] && ValueTrees(plans, a, [v][..0], provenance) == Ok([]);
    assert ValueTrees(plans, a, [v], provenance) == Ok([] + [ValueTree(plans, a, v, provenance).value]);
  }

  lemma {:induction false} ValueTreeStable(plans: seq<Plan>, a: Arena, b: Arena, v: LoweredValue, provenance: nat)
    requires PlansOk(plans) && WellFormed(a) && WellFormed(b) && Extends(a, b) && ValueOk(plans, |a.nodes|, v)
    ensures ValueOk(plans, |b.nodes|, v) && ValueTree(plans, b, v, provenance) == ValueTree(plans, a, v, provenance)
    decreases v, 1
  {
    match v
    case MorphismValue(node) => UnfoldStable(a, b, node);
    case AggregateValue(values) => ValueTreesStable(plans, a, b, values, provenance);
    case _ =>
  }

  lemma {:induction false} ValueTreesStable(plans: seq<Plan>, a: Arena, b: Arena, values: seq<LoweredValue>,
      provenance: nat)
    requires PlansOk(plans) && WellFormed(a) && WellFormed(b) && Extends(a, b)
    requires forall k :: 0 <= k < |values| ==> ValueOk(plans, |a.nodes|, values[k])
    ensures forall k :: 0 <= k < |values| ==> ValueOk(plans, |b.nodes|, values[k])
    ensures ValueTrees(plans, b, values, provenance) == ValueTrees(plans, a, values, provenance)
    decreases values, 0
  {
    if values != [] {
      ValueTreesStable(plans, a, b, values[..|values| - 1], provenance);
      ValueTreeStable(plans, a, b, values[|values| - 1], provenance);
      forall k | 0 <= k < |values| ensures ValueOk(plans, |b.nodes|, values[k]) {
        assert k < |values| - 1 ==> values[..|values| - 1][k] == values[k];
      }
    }
  }

  method Materialize(v: LoweredValue, plans: seq<Plan>, published: seq<Option<nat>>, builder: MorphismArenaBuilder,
      provenance: nat)
    returns (r: Result<nat, LoweringError>, published': seq<Option<nat>>)
    requires PlansOk(plans) && builder.Valid() && PublishedOk(plans, published, builder.Snapshot())
    requires ValueOk(plans, |builder.nodes|, v)
    modifies builder
    ensures builder.Valid() && Extends(old(builder.Snapshot()), builder.Snapshot())
    ensures PublishedOk(plans, published', builder.Snapshot())
    ensures ValueOk(plans, |builder.nodes|, v) && Materialized(plans, builder.Snapshot(), v, provenance, r)
    ensures v.BindingsValue? ==> BindingsMean(plans, builder.Snapshot(), v.bindings, provenance, r)
    decreases v, 1
  {
    ghost var start := builder.Snapshot();
    published' := published;
    match v {
      case MorphismValue(node) => r := Ok(node);
      case BindingsValue(bindings) =>
        r, published' := MaterializeBindings(bindings, plans, published, builder, provenance);
      case AggregateValue(values) =>
        r, published' := MaterializeAggregate(values, plans, published, builder, provenance);
      case TemplateValue(t) =>
        if plans[t].kind.OperationPlan? && plans[t].kind.operation == GLOBAL_SYNC {
          var node := builder.Atomic(plans[t].kind.operation, plans[t].kind.arguments, plans[t].provenance);
          PublishedStable(plans, plans, published', start, builder.Snapshot());
          r := Ok(node);
        } else {
          r := Err(UnboundTemplate);
        }
      case OtherValue => r := Err(UnboundTemplate);
    }
  }

  /** Values beside each other: all become nodes, and nested Parallel nodes are spliced. */
  method MaterializeAggregate(values: seq<LoweredValue>, plans: seq<Plan>, published: seq<Option<nat>>,
      builder: MorphismArenaBuilder, provenance: nat)
    returns (r: Result<nat, LoweringError>, published': seq<Option<nat>>)
    requires PlansOk(plans) && builder.Valid() && PublishedOk(plans, published, builder.Snapshot())
    requires ValueOk(plans, |builder.nodes|, AggregateValue(values))
    modifies builder
    ensures builder.Valid() && Extends(old(builder.Snapshot()), builder.Snapshot())
    ensures PublishedOk(plans, published', builder.Snapshot())
    ensures ValueOk(plans, |builder.nodes|, AggregateValue(values))
    ensures Materialized(plans, builder.Snapshot(), AggregateValue(values), provenance, r)
    decreases values, 2
  {
    ghost var start := builder.Snapshot();
    var children;
    children, published' := MaterializeAll(values, |values|, plans, published, builder, provenance);
    assert values[..|values|] == values;
    ghost var late := builder.Snapshot();
    ValueTreeStable(plans, start, late, AggregateValue(values), provenance);
    if children.Err? {
      r := Err(children.error);
    } else if |values| < 2 {
      r := Err(OperandPanic);
    } else {
      var node := builder.Parallel(children.value, provenance);
      PublishedStable(plans, plans, published', late, builder.Snapshot());
      ValueTreeStable(plans, late, builder.Snapshot(), AggregateValue(values), provenance);
      r := Ok(node);
    }
  }

  /** The first values become nodes in order, up to the first failure. */
  method MaterializeAll(values: seq<LoweredValue>, n: nat, plans: seq<Plan>, published: seq<Option<nat>>,
      builder: MorphismArenaBuilder, provenance: nat)
    returns (r: Result<seq<nat>, LoweringError>, published': seq<Option<nat>>)
    requires PlansOk(plans) && builder.Valid() && PublishedOk(plans, published, builder.Snapshot()) && n <= |values|
    requires forall k :: 0 <= k < |values| ==> ValueOk(plans, |builder.nodes|, values[k])
    modifies builder
    ensures builder.Valid() && Extends(old(builder.Snapshot()), builder.Snapshot())
    ensures PublishedOk(plans, published', builder.Snapshot())
    ensures forall k :: 0 <= k < |values| ==> ValueOk(plans, |builder.nodes|, values[k])
    ensures AllMaterialized(plans, builder.Snapshot(), values[..n], provenance, r)
    decreases values, 1, n
  {
    published' := published;
    if n == 0 {
      return Ok([]), published';
    }
    r, published' := MaterializeAll(values, n - 1, plans, published, builder, provenance);
    assert values[..n][..n - 1] == values[..n - 1];
    if r.Ok? {
      ghost var middle := builder.Snapshot();
      var node;
      node, published' := Materialize(values[n - 1], plans, published', builder, provenance);
      MaterializedNext(plans, middle, builder.Snapshot(), values, n, provenance, r.value, node);
      r := if node.Err? then Err(node.error) else Ok(r.value + [node.value]);
    }
  }

  ghost predicate AllMaterialized(plans: seq<Plan>, a: Arena, values: seq<LoweredValue>, provenance: nat,
      r: Result<seq<nat>, LoweringError>)
    requires PlansOk(plans) && WellFormed(a) && forall k :: 0 <= k < |values| ==> ValueOk(plans, |a.nodes|, values[k])
  {
    match r
    case Err(e) => ValueTrees(plans, a, values, provenance) == Err(e)
    case Ok(nodes) => Below(nodes, |a.nodes|) && ValueTrees(plans, a, values, provenance) == Ok(UnfoldAll(a, nodes))
  }

  lemma MaterializedNext(plans: seq<Plan>, a: Arena, b: Arena, values: seq<LoweredValue>, n: nat, provenance: nat,
      nodes: seq<nat>, node: Result<nat, LoweringError>)
    requires PlansOk(plans) && WellFormed(a) && WellFormed(b) && Extends(a, b) && 0 < n <= |values|
    requires forall k :: 0 <= k < |values| ==> ValueOk(plans, |a.nodes|, values[k])
    requires AllMaterialized(plans, a, values[..n - 1], provenance, Ok(nodes))
    requires ValueOk(plans, |b.nodes|, values[n - 1]) && Materialized(plans, b, values[n - 1], provenance, node)
    ensures forall k :: 0 <= k < |values| ==> ValueOk(plans, |b.nodes|, values[k])
    ensures AllMaterialized(plans, b, values[..n], provenance,
      if node.Err? then Err(node.error) else Ok(nodes + [node.value]))
  {
    ValueTreesStable(plans, a, b, values, provenance);
    ValueTreesStable(plans, a, b, values[..n - 1], provenance);
    UnfoldAllStable(a, b, nodes);
    assert values[..n][..n - 1] == values[..n - 1] && values[..n][n - 1] == values[n - 1];
    if node.Ok? {
      UnfoldAllPush(b, nodes, node.value);
    }
  }

  lemma UnfoldAllPush(a: Arena, nodes: seq<nat>, node: nat)
    requires WellFormed(a) && Below(nodes, |a.nodes|) && node < |a.nodes|
    ensures Below(nodes + [node], |a.nodes|) && UnfoldAll(a, nodes + [node]) == UnfoldAll(a, nodes) + [Unfold(a, node)]
  {
  }

  /** The plan is the composition of two earlier ones. */
  predicate RecordedAs(op: Composition, left: nat, right: nat, provenance: nat, plan: Plan) {
    && plan.provenance == provenance
    && (op == AutoSerialOp ==> plan.kind == SerialPlan([left, right], [Auto]))
    && (op == StrictSerialOp ==> plan.kind == SerialPlan([left, right], [Strict]))
    && (op == ParallelOp ==> plan.kind == ParallelPlan([left, right]))
  }

  /** Two templates compose into a further plan; nothing is built yet. */
  method RecordComposition(op: Composition, left: nat, right: nat, plans: seq<Plan>, provenance: nat)
    returns (plans': seq<Plan>)
    requires PlansOk(plans) && left < |plans| && right < |plans|
    ensures PlansOk(plans') && plans <= plans' && |plans'| == |plans| + 1
    ensures PlanTree(plans', |plans|) == Compose(op, PlanTree(plans, left), PlanTree(plans, right), provenance)
    ensures RecordedAs(op, left, right, provenance, plans'[|plans|])
  {
    var kind := match op
      case AutoSerialOp => SerialPlan([left, right], [Auto])
      case StrictSerialOp => SerialPlan([left, right], [Strict])
      case ParallelOp => ParallelPlan([left, right]);
    plans' := plans + [Plan(kind, provenance)];
    assert PlanOk(plans'[|plans|], |plans|);
    PlanTreeStable(plans, plans', left);
    PlanTreeStable(plans, plans', right);
    PairTree(plans', |plans|, left, right);
  }

  lemma PairTree(plans: seq<Plan>, i: nat, left: nat, right: nat)
    requires PlansOk(plans) && i < |plans| && left < i && right < i && PlanChildren(plans[i]) == [left, right]
    ensures PlanTrees(plans, i) == [PlanTree(plans, left), PlanTree(plans, right)]
  {
  }

  /** Compose two operands: without both there is no value and nothing is built. */
  method LowerComposition(op: Composition, left: Option<LoweredValue>, right: Option<LoweredValue>, plans: seq<Plan>,
      published: seq<Option<nat>>, builder: MorphismArenaBuilder, provenance: nat)
    returns (r: Option<Result<LoweredValue, LoweringError>>, plans': seq<Plan>, published': seq<Option<nat>>)
    requires PlansOk(plans) && builder.Valid() && PublishedOk(plans, published, builder.Snapshot())
    requires left.Some? ==> ValueOk(plans, |builder.nodes|, left.value)
    requires right.Some? ==> ValueOk(plans, |builder.nodes|, right.value)
    modifies builder
    ensures builder.Valid() && Extends(old(builder.Snapshot()), builder.Snapshot())
    ensures plans <= plans' && PlansOk(plans') && PublishedOk(plans', published', builder.Snapshot())
    ensures r.Some? <==> left.Some? && right.Some?
    ensures r.None? ==> plans' == plans && published' == published && builder.Snapshot() == old(builder.Snapshot())
    ensures r.Some? && left.value.TemplateValue? && right.value.TemplateValue? ==>
      && r.value == Ok(TemplateValue(|plans|)) && |plans'| == |plans| + 1
      && RecordedAs(op, left.value.template, right.value.template, provenance, plans'[|plans|])
      && PlanTree(plans', |plans|) ==
        Compose(op, PlanTree(plans, left.value.template), PlanTree(plans, right.value.template), provenance)
    ensures r.Some? && !(left.value.TemplateValue? && right.value.TemplateValue?) ==>
      plans' == plans &&
      Composed(op, plans, old(builder.Snapshot()), left.value, right.value, provenance, builder.Snapshot(), r.value)
  {
    if left.None? || right.None? {
      return None, plans, published;
    }
    var pair;
    pair, plans', published' := ComposePair(op, left.value, right.value, plans, published, builder, provenance);
    r := Some(pair);
  }

  /** Two templates give a new plan, any other two values give a node. */
  method ComposePair(op: Composition, left: LoweredValue, right: LoweredValue, plans: seq<Plan>,
      published: seq<Option<nat>>, builder: MorphismArenaBuilder, provenance: nat)
    returns (r: Result<LoweredValue, LoweringError>, plans': seq<Plan>, published': seq<Option<nat>>)
    requires PlansOk(plans) && builder.Valid() && PublishedOk(plans, published, builder.Snapshot())
    requires ValueOk(plans, |builder.nodes|, left) && ValueOk(plans, |builder.nodes|, right)
    modifies builder
    ensures builder.Valid() && Extends(old(builder.Snapshot()), builder.Snapshot())
    ensures plans <= plans' && PlansOk(plans') && PublishedOk(plans', published', builder.Snapshot())
    ensures left.TemplateValue? && right.TemplateValue? ==>
      && r == Ok(TemplateValue(|plans|)) && |plans'| == |plans| + 1
      && RecordedAs(op, left.template, right.template, provenance, plans'[|plans|])
      && PlanTree(plans', |plans|) == Compose(op, PlanTree(plans, left.template), PlanTree(plans, right.template),
        provenance)
    ensures !(left.TemplateValue? && right.TemplateValue?) ==>
      plans' == plans && Composed(op, plans, old(builder.Snapshot()), left, right, provenance, builder.Snapshot(), r)
  {
    published' := published;
    if left.TemplateValue? && right.TemplateValue? {
      plans' := RecordComposition(op, left.template, right.template, plans, provenance);
      PublishedStable(plans, plans', published, builder.Snapshot(), builder.Snapshot());
      return Ok(TemplateValue(|plans|)), plans', published';
    }
    plans' := plans;
    r, published' := ComposeValues(op, left, right, plans, published, builder, provenance);
  }

  method ComposeValues(op: Composition, left: LoweredValue, right: LoweredValue, plans: seq<Plan>,
                       published: seq<Option<nat>>, builder: MorphismArenaBuilder, provenance: nat)
    returns (r: Result<LoweredValue, LoweringError>, published': seq<Option<nat>>)
    requires PlansOk(plans) && builder.Valid() && PublishedOk(plans, published, builder.Snapshot())
    requires ValueOk(plans, |builder.nodes|, left) && ValueOk(plans, |builder.nodes|, right)
    modifies builder
    ensures builder.Valid() && Extends(old(builder.Snapshot()), builder.Snapshot())
    ensures PublishedOk(plans, published', builder.Snapshot())
    ensures Composed(op, plans, old(builder.Snapshot()), left, right, provenance, builder.Snapshot(), r)
  {
    ghost var start := builder.Snapshot();
    var l;
    l, published' := Materialize(left, plans, published, builder, provenance);
    ghost var middle := builder.Snapshot();
    ValueTreeStable(plans, start, middle, left, provenance);
    ValueTreeStable(plans, start, middle, right, provenance);
    if l.Err? {
      return Err(l.error), published';
    }
    r, published' := ComposeRight(op, l.value, right, plans, published', builder, provenance);
  }

  /** The right value after the left one has become a node. */
  method ComposeRight(op: Composition, left: nat, right: LoweredValue, plans: seq<Plan>,
                      published: seq<Option<nat>>, builder: MorphismArenaBuilder, provenance: nat)
    returns (r: Result<LoweredValue, LoweringError>, published': seq<Option<nat>>)
    requires PlansOk(plans) && builder.Valid() && PublishedOk(plans, published, builder.Snapshot())
    requires left < |builder.nodes| && ValueOk(plans, |builder.nodes|, right)
    modifies builder
    ensures builder.Valid() && Extends(old(builder.Snapshot()), builder.Snapshot())
    ensures PublishedOk(plans, published', builder.Snapshot())
    ensures ComposedRight(op, plans, old(builder.Snapshot()), Unfold(old(builder.Snapshot()), left), right,
      provenance, builder.Snapshot(), r)
  {
    ghost var middle := builder.Snapshot();
    var rt;
    rt, published' := Materialize(right, plans, published, builder, provenance);
    ghost var late := builder.Snapshot();
    ValueTreeStable(plans, middle, late, right, provenance);
    if rt.Err? {
      return Err(rt.error), published';
    }
    UnfoldStable(middle, late, left);
    var node := ComposeNodes(op, left, rt.value, builder, provenance);
    PublishedStable(plans, plans, published', late, builder.Snapshot());
    r := Ok(MorphismValue(node));
  }

  method ComposeNodes(op: Composition, left: nat, right: nat, builder: MorphismArenaBuilder, provenance: nat)
    returns (node: nat)
    requires builder.Valid() && left < |builder.nodes| && right < |builder.nodes|
    modifies builder
    ensures builder.Valid() && GrownByNode(old(builder.Snapshot()), builder.Snapshot(), node)
    ensures ComposedAs(op, Unfold(old(builder.Snapshot()), left), Unfold(old(builder.Snapshot()), right), provenance,
      Unfold(builder.Snapshot(), node))
  {
    ghost var before := builder.Snapshot();
    assert UnfoldAll(before, [left, right]) == [Unfold(before, left), Unfold(before, right)];
    match op {
      case AutoSerialOp => node := builder.Serial([left, right], [Auto], provenance);
      case StrictSerialOp => node := builder.Serial([left, right], [Strict], provenance);
      case ParallelOp => node := builder.Parallel([left, right], provenance);
    }
  }

  /** The left operand's failure is reported first; otherwise the node is the flat composition of both meanings. */
  ghost predicate ComposedRight(op: Composition, plans: seq<Plan>, a: Arena, left: Tree, right: LoweredValue,
      provenance: nat, b: Arena, r: Result<LoweredValue, LoweringError>)
    requires PlansOk(plans) && WellFormed(a) && WellFormed(b) && ValueOk(plans, |a.nodes|, right)
  {
    match ValueTree(plans, a, right, provenance)
    case Err(e) => r == Err(e)
    case Ok(tree) =>
      && r.Ok? && r.value.MorphismValue? && r.value.node < |b.nodes|
      && ComposedAs(op, left, tree, provenance, Unfold(b, r.value.node))
  }

  ghost predicate Composed(op: Composition, plans: seq<Plan>, a: Arena, left: LoweredValue, right: LoweredValue,
      provenance: nat, b: Arena, r: Result<LoweredValue, LoweringError>)
    requires PlansOk(plans) && WellFormed(a) && WellFormed(b)
    requires ValueOk(plans, |a.nodes|, left) && ValueOk(plans, |a.nodes|, right)
  {
    match (ValueTree(plans, a, left, provenance), ValueTree(plans, a, right, provenance))
    case (Err(e), _) => r == Err(e)
    case (Ok(_), Err(e)) => r == Err(e)
    case (Ok(l), Ok(rt)) =>
      && r.Ok? && r.value.MorphismValue? && r.value.node < |b.nodes|
      && ComposedAs(op, l, rt, provenance, Unfold(b, r.value.node))
  }
}
