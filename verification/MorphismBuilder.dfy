/** The arena builder: it appends leaves, flattens compositions, publishes templates. */
module MorphismBuilder {
  import opened Common
  import opened MorphismTree
  import opened MorphismArena
  import opened MorphismCollection

  /** An interning table and its lookup agree: names are distinct and each is found at its own index. */
  ghost predicate Interned(names: seq<string>, ids: map<string, nat>) {
    && (forall n {:trigger ids[n]} :: n in ids ==> ids[n] < |names| && names[ids[n]] == n)
    && (forall k {:trigger names[k] in ids} :: 0 <= k < |names| ==> names[k] in ids && ids[names[k]] == k)
  }

  lemma InternedNamesAreDistinct(names: seq<string>, ids: map<string, nat>, j: nat, k: nat)
    requires Interned(names, ids) && j < |names| && k < |names| && names[j] == names[k]
    ensures j == k
  {
    assert names[j] in ids && names[k] in ids;
  }

  /** One node appended, every earlier node and template kept. */
  predicate GrownByNode(a: Arena, b: Arena, id: nat) {
    Extends(a, b) && id == |a.nodes| && |b.nodes| == id + 1 && b.templates == a.templates
  }

  /** One more operand spliced in. */
  lemma FlatIdsNext(a: Arena, kind: Kind, children: seq<nat>, index: nat)
    requires WellFormed(a) && Below(children, |a.nodes|) && index < |children|
    ensures NodeOk(a, children[index])
    ensures FlatIds(a, kind, children[..index + 1]) ==
      FlatIds(a, kind, children[..index]) + if a.nodes[children[index]].kind == kind
        then Children(a, children[index]) else [children[index]]
  {
    assert children[..index + 1][..index] == children[..index];
  }

  lemma GlueNext(pieces: seq<seq<BoundaryPolicy>>, bounds: seq<BoundaryPolicy>, index: nat)
    requires index < |pieces| && |bounds| + 1 == |pieces|
    ensures index == 0 ==> Glue(pieces[..1], bounds[..0]) == pieces[0]
    ensures index > 0 ==>
      Glue(pieces[..index + 1], bounds[..index]) == Glue(pieces[..index],
        bounds[..index - 1]) + [bounds[index - 1]] + pieces[index]
  {
    if index > 0 {
      assert pieces[..index + 1][..index] == pieces[..index];
      assert bounds[..index][..index - 1] == bounds[..index - 1];
    }
  }

  /** A Loop node over an earlier body was appended, with its edge and its count. */
  lemma LoopAdded(a: Arena, b: Arena, body: nat, count: ValueId, provenance: nat)
    requires WellFormed(a) && body < |a.nodes|
    requires b == a.(edges := a.edges + [body], payloads := a.payloads + [LoopPayload(count)],
      nodes := a.nodes + [Node(Kind.Loop, |a.edges|, 1, |a.boundaries|, Some(|a.payloads|), provenance)])
    ensures WellFormed(b) && GrownByNode(a, b, |a.nodes|)
    ensures Unfold(b, |a.nodes|) == LoopTree(Unfold(a, body), count, provenance)
  {
    assert Children(b, |a.nodes|) == [body];
    GrownNodeStaysWellFormed(a, b);
    UnfoldStable(a, b, body);
  }

  /** A composition of earlier nodes was appended, with its edges and its boundaries. */
  lemma CompositionAdded(a: Arena, b: Arena, kind: Kind, children: seq<nat>, bounds: seq<BoundaryPolicy>,
      provenance: nat)
    requires WellFormed(a) && |children| >= 2 && Below(children, |a.nodes|)
    requires kind in {Kind.Serial, Kind.Parallel} && NoneOfKind(a, children, kind)
    requires kind == Kind.Serial ==> |bounds| == |children| - 1
    requires b == a.(edges := a.edges + children, boundaries := a.boundaries + bounds,
      nodes := a.nodes + [Node(kind, |a.edges|, |children|, |a.boundaries|, None, provenance)])
    ensures WellFormed(b) && GrownByNode(a, b, |a.nodes|)
    ensures NodeOk(b, |a.nodes|) && b.nodes[|a.nodes|].kind == kind && Children(b, |a.nodes|) == children
    ensures kind == Kind.Serial ==> Boundaries(b, |a.nodes|) == bounds
    ensures Unfold(b, |a.nodes|) ==
      if kind == Kind.Serial then SerialTree(UnfoldAll(a, children), bounds, provenance)
      else ParallelTree(UnfoldAll(a, children), provenance)
  {
    CompositionHolds(a, b, kind, children, bounds, provenance);
    GrownNodeStaysWellFormed(a, b);
    UnfoldAllStable(a, b, children);
    assert UnfoldChildren(b, |a.nodes|) == UnfoldAll(a, children);
  }

  lemma CompositionHolds(a: Arena, b: Arena, kind: Kind, children: seq<nat>, bounds: seq<BoundaryPolicy>,
      provenance: nat)
    requires WellFormed(a) && |children| >= 2 && Below(children, |a.nodes|)
    requires kind in {Kind.Serial, Kind.Parallel} && NoneOfKind(a, children, kind)
    requires kind == Kind.Serial ==> |bounds| == |children| - 1
    requires b == a.(edges := a.edges + children, boundaries := a.boundaries + bounds,
      nodes := a.nodes + [Node(kind, |a.edges|, |children|, |a.boundaries|, None, provenance)])
    ensures Extends(a, b) && NodeOk(b, |a.nodes|) && Children(b, |a.nodes|) == children
    ensures kind == Kind.Serial ==> Boundaries(b, |a.nodes|) == bounds
  {
    assert Children(b, |a.nodes|) == children;
    assert kind == Kind.Serial ==> Boundaries(b, |a.nodes|) == bounds;
  }

  class MorphismArenaBuilder {
    var nodes: seq<Node>
    var edges: seq<nat>
    var boundaries: seq<BoundaryPolicy>
    var payloads: seq<Payload>
    var valueArguments: seq<ValueId>
    var opaqueCalls: seq<BoardCall>
    var templates: seq<nat>
    var definitions: seq<string>
    var definitionIds: map<string, nat>
    var operations: seq<string>
    var operationIds: map<string, nat>
    var channels: seq<string>
    var channelIds: map<string, nat>

    function Snapshot(): Arena
      reads this
    {
      Arena(nodes, edges, boundaries, payloads, valueArguments, opaqueCalls, templates, definitions, operations,
        channels)
    }

    ghost predicate NamesInterned()
      reads `definitions, `definitionIds, `operations, `operationIds, `channels, `channelIds
    {
      && Interned(definitions, definitionIds)
      && Interned(operations, operationIds)
      && Interned(channels, channelIds)
    }

    ghost predicate Valid()
      reads this
    {
      WellFormed(Snapshot()) && NamesInterned()
    }

    constructor ()
      ensures Valid() && Snapshot() == EMPTY
    {
      nodes, edges, boundaries, payloads := [], [], [], [];
      valueArguments, opaqueCalls, templates := [], [], [];
      definitions, definitionIds := [], map[];
      operations, operationIds := [], map[];
      channels, channelIds := [], map[];
    }

    method DefinitionRef(definition: string, arguments: seq<ValueId>, provenance: nat) returns (id: nat)
      requires Valid()
      modifies this
      ensures Valid() && GrownByNode(old(Snapshot()), Snapshot(), id)
      ensures Unfold(Snapshot(), id) == LeafTree(DefinitionLeaf(definition, arguments), provenance)
    {
      ghost var before := Snapshot();
      var definitionId := InternDefinition(definition);
      var start, count := PushArguments(arguments);
      id := PushLeaf(before, DefinitionPayload(definitionId, start, count), provenance);
    }

    method Atomic(operation: string, arguments: seq<ValueId>, provenance: nat) returns (id: nat)
      requires Valid()
      modifies this
      ensures Valid() && GrownByNode(old(Snapshot()), Snapshot(), id)
      ensures Unfold(Snapshot(), id) == LeafTree(AtomicLeaf(operation, arguments), provenance)
    {
      ghost var before := Snapshot();
      var operationId := InternOperation(operation);
      var start, count := PushArguments(arguments);
      id := PushLeaf(before, AtomicPayload(operationId, start, count), provenance);
    }

    method Opaque(duration: ValueId, calls: seq<BoardCall>, metadata: ValueId, provenance: nat) returns (id: nat)
      requires Valid()
      modifies this
      ensures Valid() && GrownByNode(old(Snapshot()), Snapshot(), id)
      ensures Unfold(Snapshot(), id) == LeafTree(OpaqueLeaf(duration, calls, metadata), provenance)
    {
      ghost var before := Snapshot();
      var start := |opaqueCalls|;
      opaqueCalls := opaqueCalls + calls;
      assert opaqueCalls[start..start + |calls|] == calls;
      id := PushLeaf(before, OpaquePayload(duration, start, |calls|, metadata), provenance);
    }

    method LogicalShift(duration: ValueId, provenance: nat) returns (id: nat)
      requires Valid()
      modifies this
      ensures Valid() && GrownByNode(old(Snapshot()), Snapshot(), id)
      ensures Unfold(Snapshot(), id) == LeafTree(WaitLeaf(duration, LogicalDisplacement), provenance)
    {
      id := TimeDisplacement(duration, LogicalDisplacement, provenance);
    }

    method PhysicalWait(duration: ValueId, provenance: nat) returns (id: nat)
      requires Valid()
      modifies this
      ensures Valid() && GrownByNode(old(Snapshot()), Snapshot(), id)
      ensures Unfold(Snapshot(), id) == LeafTree(WaitLeaf(duration, PhysicalInterval), provenance)
    {
      id := TimeDisplacement(duration, PhysicalInterval, provenance);
    }

    method TimeDisplacement(duration: ValueId, semantics: WaitSemantics, provenance: nat) returns (id: nat)
      requires Valid()
      modifies this
      ensures Valid() && GrownByNode(old(Snapshot()), Snapshot(), id)
      ensures Unfold(Snapshot(), id) == LeafTree(WaitLeaf(duration, semantics), provenance)
    {
      ghost var before := Snapshot();
      id := PushLeaf(before, WaitPayload(duration, semantics), provenance);
    }

    method PublishTemplate(root: nat) returns (id: nat)
      requires Valid() && root < |nodes|
      modifies this`templates
      ensures Valid() && id == |old(templates)| && templates == old(templates) + [root]
    {
      ghost var before := Snapshot();
      id := |templates|;
      templates := templates + [root];
      GrownTablesStayWellFormed(before, Snapshot());
    }

    method Instantiate(template: nat, channel: string, provenance: nat) returns (id: nat)
      requires Valid() && template < |templates|
      modifies this
      ensures Valid() && GrownByNode(old(Snapshot()), Snapshot(), id)
      ensures Unfold(Snapshot(), id)
           == InstanceTree(channel, Unfold(old(Snapshot()), old(templates[template])), provenance)
    {
      ghost var before := Snapshot();
      var channelId := InternChannel(channel);
      id := PushLeaf(before, InstantiatePayload(template, channelId), provenance);
      UnfoldStable(before, Snapshot(), before.templates[template]);
    }

    /** Nested Serial operands are spliced in, keeping every boundary in its place. */
    method Serial(children: seq<nat>, bounds: seq<BoundaryPolicy>, provenance: nat) returns (id: nat)
      requires Valid() && |children| >= 2 && |bounds| + 1 == |children| && Below(children, |nodes|)
      modifies this
      ensures Valid() && GrownByNode(old(Snapshot()), Snapshot(), id)
      ensures NodeOk(Snapshot(), id) && nodes[id].kind == Kind.Serial
      ensures Children(Snapshot(), id) == FlatIds(old(Snapshot()), Kind.Serial, children)
      ensures Boundaries(Snapshot(), id) == FlatBoundaries(old(Snapshot()), children, bounds)
      ensures Unfold(Snapshot(), id) == FlattenSerial(UnfoldAll(old(Snapshot()), children), bounds, provenance)
    {
      ghost var before := Snapshot();
      var flatChildren, flatBounds := SpliceSerial(children, bounds);
      FlatIdsShape(before, Kind.Serial, children);
      FlatSerialMeaning(before, children);
      FlatBoundariesMeaning(before, children, bounds);
      id := PushComposition(Kind.Serial, flatChildren, flatBounds, provenance);
    }

    method SpliceSerial(children: seq<nat>, bounds: seq<BoundaryPolicy>)
      returns (flatChildren: seq<nat>, flatBounds: seq<BoundaryPolicy>)
      requires WellFormed(Snapshot()) && |children| >= 1 && |bounds| + 1 == |children| && Below(children, |nodes|)
      ensures flatChildren == FlatIds(Snapshot(), Kind.Serial, children)
      ensures flatBounds == FlatBoundaries(Snapshot(), children, bounds)
    {
      ghost var a := Snapshot();
      ghost var pieces := BoundaryPieces(a, children);
      flatChildren, flatBounds := [], [];
      for index := 0 to |children|
        invariant flatChildren == FlatIds(a, Kind.Serial, children[..index])
        invariant index == 0 ==> flatBounds == []
        invariant index > 0 ==> flatBounds == Glue(pieces[..index], bounds[..index - 1])
      {
        var child := children[index];
        FlatIdsNext(a, Kind.Serial, children, index);
        GlueNext(pieces, bounds, index);
        assert NodeOk(a, child) && pieces[index] == Boundaries(a, child);
        if index > 0 {
          flatBounds := flatBounds + [bounds[index - 1]];
        }
        var node := nodes[child];
        if node.kind == Kind.Serial {
          flatChildren := flatChildren + edges[node.edgeStart..node.edgeStart + node.edgeCount];
          flatBounds := flatBounds + boundaries[node.boundaryStart..node.boundaryStart + node.edgeCount - 1];
        } else {
          flatChildren := flatChildren + [child];
        }
      }
      assert children[..|children|] == children && bounds[..|bounds|] == bounds && pieces[..|pieces|] == pieces;
    }

    /** Nested Parallel operands are spliced in. */
    method Parallel(children: seq<nat>, provenance: nat) returns (id: nat)
      requires Valid() && |children| >= 2 && Below(children, |nodes|)
      modifies this
      ensures Valid() && GrownByNode(old(Snapshot()), Snapshot(), id)
      ensures NodeOk(Snapshot(), id) && nodes[id].kind == Kind.Parallel
      ensures Children(Snapshot(), id) == FlatIds(old(Snapshot()), Kind.Parallel, children)
      ensures Unfold(Snapshot(), id) == FlattenParallel(UnfoldAll(old(Snapshot()), children), provenance)
    {
      ghost var before := Snapshot();
      var flattened: seq<nat> := [];
      for index := 0 to |children|
        invariant Snapshot() == before && Valid()
        invariant flattened == FlatIds(before, Kind.Parallel, children[..index])
      {
        var child := children[index];
        assert children[..index + 1][..index] == children[..index];
        assert NodeOk(before, child);
        var node := nodes[child];
        if node.kind == Kind.Parallel {
          flattened := flattened + edges[node.edgeStart..node.edgeStart + node.edgeCount];
        } else {
          flattened := flattened + [child];
        }
      }
      assert children[..|children|] == children;
      FlatIdsShape(before, Kind.Parallel, children);
      FlatParallelMeaning(before, children);
      id := PushComposition(Kind.Parallel, flattened, [], provenance);
    }

    method LoopRegion(body: nat, count: ValueId, provenance: nat) returns (id: nat)
      requires Valid() && body < |nodes|
      modifies this
      ensures Valid() && GrownByNode(old(Snapshot()), Snapshot(), id)
      ensures Unfold(Snapshot(), id) == LoopTree(Unfold(old(Snapshot()), body), count, provenance)
    {
      ghost var before := Snapshot();
      var edgeStart := |edges|;
      edges := edges + [body];
      payloads := payloads + [LoopPayload(count)];
      nodes := nodes + [Node(Kind.Loop, edgeStart, 1, |boundaries|, Some(|payloads| - 1), provenance)];
      id := |nodes| - 1;
      LoopAdded(before, Snapshot(), body, count, provenance);
    }

    /** Close the arena.  It fails only for a foreign root, or for a kept Opaque node
        without board calls or with an unnamed one. */
    method Finish(root: nat) returns (r: Result<Program, string>)
      requires Valid()
      ensures r.Ok? <==> root < |nodes| && ReachableCallsNamed(Snapshot(), root)
      ensures r.Ok? ==> ProgramValid(r.value) && Collected(Snapshot(), root, r.value)
    {
      var a := Snapshot();
      if root >= |nodes| {
        return Err("root does not belong to the builder");
      }
      var marks := MarkReachable(a, root);
      ReachableRoot(a, Roots(a, root), root);
      var program := Renumber(a, marks, root);
      RenumberedIsCollected(a, marks, root, program);
      CollectedIsValid(a, marks, root, program);
      var valid := Validate(program);
      if !valid {
        return Err("invalid arena");
      }
      return Ok(program);
    }

    // ---- the private pushes

    method InternDefinition(value: string) returns (id: nat)
      requires Interned(definitions, definitionIds)
      modifies this`definitions, this`definitionIds
      ensures Interned(definitions, definitionIds)
      ensures definitions == if value in old(definitions) then old(definitions) else old(definitions) + [value]
      ensures id < |definitions| && definitions[id] == value
    {
      if value in definitionIds {
        return definitionIds[value];
      }
      id := |definitions|;
      definitions := definitions + [value];
      definitionIds := definitionIds[value := id];
    }

    method InternOperation(value: string) returns (id: nat)
      requires Interned(operations, operationIds)
      modifies this`operations, this`operationIds
      ensures Interned(operations, operationIds)
      ensures operations == if value in old(operations) then old(operations) else old(operations) + [value]
      ensures id < |operations| && operations[id] == value
    {
      if value in operationIds {
        return operationIds[value];
      }
      id := |operations|;
      operations := operations + [value];
      operationIds := operationIds[value := id];
    }

    method InternChannel(value: string) returns (id: nat)
      requires Interned(channels, channelIds)
      modifies this`channels, this`channelIds
      ensures Interned(channels, channelIds)
      ensures channels == if value in old(channels) then old(channels) else old(channels) + [value]
      ensures id < |channels| && channels[id] == value
    {
      if value in channelIds {
        return channelIds[value];
      }
      id := |channels|;
      channels := channels + [value];
      channelIds := channelIds[value := id];
    }

    method PushArguments(arguments: seq<ValueId>) returns (start: nat, count: nat)
      modifies this`valueArguments
      ensures old(valueArguments) <= valueArguments && start + count == |valueArguments|
      ensures valueArguments[start..start + count] == arguments
    {
      start, count := |valueArguments|, |arguments|;
      valueArguments := valueArguments + arguments;
    }

    /** `before` is the arena before its tables grew for this leaf. */
    method PushLeaf(ghost before: Arena, payload: Payload, provenance: nat) returns (id: nat)
      requires WellFormed(before) && NamesInterned()
      requires Extends(before, Snapshot()) && nodes == before.nodes && templates == before.templates
      requires !payload.LoopPayload? && PayloadInRange(Snapshot(), payload, |nodes|)
      modifies this`nodes, this`payloads
      ensures Valid() && GrownByNode(before, Snapshot(), id)
      ensures NodeOk(Snapshot(), id) && nodes[id].provenance == provenance
      ensures ViewOf(Snapshot(), id) == old(Resolve(Snapshot(), payload, |nodes|))
      ensures !payload.InstantiatePayload? ==>
        Unfold(Snapshot(), id) == LeafTree(old(Resolve(Snapshot(), payload, |nodes|)).leaf, provenance)
    {
      payloads := payloads + [payload];
      id := PushNode(Node(KindOf(payload), |edges|, 0, |boundaries|, Some(|payloads| - 1), provenance));
      assert NodeOk(Snapshot(), id);
      GrownNodeStaysWellFormed(before, Snapshot());
    }

    method PushComposition(kind: Kind, children: seq<nat>, nodeBounds: seq<BoundaryPolicy>, provenance: nat)
      returns (id: nat)
      requires Valid() && |children| >= 2 && Below(children, |nodes|)
      requires kind in {Kind.Serial, Kind.Parallel} && NoneOfKind(Snapshot(), children, kind)
      requires kind == Kind.Serial ==> |nodeBounds| == |children| - 1
      modifies this`nodes, this`edges, this`boundaries
      ensures Valid() && GrownByNode(old(Snapshot()), Snapshot(), id)
      ensures NodeOk(Snapshot(), id) && nodes[id].kind == kind && Children(Snapshot(), id) == children
      ensures kind == Kind.Serial ==> Boundaries(Snapshot(), id) == nodeBounds
      ensures Unfold(Snapshot(), id) ==
        if kind == Kind.Serial then SerialTree(UnfoldAll(old(Snapshot()), children), nodeBounds, provenance)
        else ParallelTree(UnfoldAll(old(Snapshot()), children), provenance)
    {
      ghost var before := Snapshot();
      var edgeStart := |edges|;
      edges := edges + children;
      var boundaryStart := |boundaries|;
      boundaries := boundaries + nodeBounds;
      id := PushNode(Node(kind, edgeStart, |children|, boundaryStart, None, provenance));
      CompositionAdded(before, Snapshot(), kind, children, nodeBounds, provenance);
    }

    method PushNode(node: Node) returns (id: nat)
      modifies this`nodes
      ensures nodes == old(nodes) + [node] && id == |old(nodes)|
    {
      id := |nodes|;
      nodes := nodes + [node];
    }
  }
}
