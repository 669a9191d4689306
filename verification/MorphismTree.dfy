/** The meaning of a Morphism: a tree of leaves under Serial, Parallel and Loop,
    with the template behind every instantiation unfolded.  Also the flat form
    the arena builder produces, and what flattening preserves. */
module MorphismTree {

  type ValueId = nat

  datatype BoundaryPolicy = Auto | Strict

  datatype WaitSemantics = LogicalDisplacement | PhysicalInterval

  datatype BoardCall = BoardCall(board: string, callable: string, arguments: ValueId, keywordArguments: ValueId)

  datatype Leaf =
    | AtomicLeaf(operation: string, arguments: seq<ValueId>)
    | OpaqueLeaf(duration: ValueId, calls: seq<BoardCall>, metadata: ValueId)
    | WaitLeaf(duration: ValueId, semantics: WaitSemantics)
    | DefinitionLeaf(definition: string, arguments: seq<ValueId>)
    | SyncPhiLeaf

  datatype Tree =
    | LeafTree(leaf: Leaf, provenance: nat)
    | InstanceTree(channel: string, body: Tree, provenance: nat)
    | SerialTree(children: seq<Tree>, boundaries: seq<BoundaryPolicy>, provenance: nat)
    | ParallelTree(children: seq<Tree>, provenance: nat)
    | LoopTree(body: Tree, count: ValueId, provenance: nat)

  /** Serial and Parallel have at least two children, and one boundary sits
      between each pair of Serial neighbours. */
  predicate Shaped(t: Tree) {
    match t
    case LeafTree(_, _) => true
    case InstanceTree(_, body, _) => Shaped(body)
    case LoopTree(body, _, _) => Shaped(body)
    case SerialTree(ts, bs, _) => |ts| >= 2 && |bs| == |ts| - 1 && forall c | c in ts :: Shaped(c)
    case ParallelTree(ts, _) => |ts| >= 2 && forall c | c in ts :: Shaped(c)
  }

  /** No Serial directly under a Serial, no Parallel directly under a Parallel. */
  predicate Flat(t: Tree) {
    match t
    case LeafTree(_, _) => true
    case InstanceTree(_, body, _) => Flat(body)
    case LoopTree(body, _, _) => Flat(body)
    case SerialTree(ts, _, _) => forall c | c in ts :: Flat(c) && !c.SerialTree?
    case ParallelTree(ts, _) => forall c | c in ts :: Flat(c) && !c.ParallelTree?
  }

  /** The operands a tree contributes to an enclosing Serial, and the boundaries between them. */
  function Spine(t: Tree): seq<Tree> {
    if t.SerialTree? then t.children else [t]
  }

  function Seams(t: Tree): seq<BoundaryPolicy> {
    if t.SerialTree? then t.boundaries else []
  }

  /** The operands a tree contributes to an enclosing Parallel. */
  function Branches(t: Tree): seq<Tree> {
    if t.ParallelTree? then t.children else [t]
  }

  function JoinSpines(ts: seq<Tree>): seq<Tree> {
    if ts == [] then [] else JoinSpines(ts[..|ts| - 1]) + Spine(ts[|ts| - 1])
  }

  function JoinSeams(ts: seq<Tree>, bs: seq<BoundaryPolicy>): seq<BoundaryPolicy>
    requires |bs| == |ts| - 1
  {
    var last := |ts| - 1;
    if last == 0 then Seams(ts[0])
    else JoinSeams(ts[..last], bs[..last - 1]) + [bs[last - 1]] + Seams(ts[last])
  }

  function JoinBranches(ts: seq<Tree>): seq<Tree> {
    if ts == [] then [] else JoinBranches(ts[..|ts| - 1]) + Branches(ts[|ts| - 1])
  }

  /** What the builder makes of a Serial or Parallel request over already built operands. */
  function FlattenSerial(ts: seq<Tree>, bs: seq<BoundaryPolicy>, provenance: nat): Tree
    requires |bs| == |ts| - 1
  {
    SerialTree(JoinSpines(ts), JoinSeams(ts, bs), provenance)
  }

  function FlattenParallel(ts: seq<Tree>, provenance: nat): Tree {
    ParallelTree(JoinBranches(ts), provenance)
  }

  /** The flat form of a whole composition, built bottom up. */
  function Normalize(t: Tree): Tree
    requires Shaped(t)
  {
    match t
    case LeafTree(_, _) => t
    case InstanceTree(channel, body, p) => InstanceTree(channel, Normalize(body), p)
    case LoopTree(body, count, p) => LoopTree(Normalize(body), count, p)
    case SerialTree(ts, bs, p) => FlattenSerial(NormalizeAll(ts), bs, p)
    case ParallelTree(ts, p) => FlattenParallel(NormalizeAll(ts), p)
  }

  function NormalizeAll(ts: seq<Tree>): (rs: seq<Tree>)
    requires forall c | c in ts :: Shaped(c)
    ensures |rs| == |ts| && forall k :: 0 <= k < |ts| ==> rs[k] == Normalize(ts[k])
  {
    if ts == [] then []
    else NormalizeAll(ts[..|ts| - 1]) + [Normalize(ts[|ts| - 1])]
  }

  // ---- shape of the joined sequences

  lemma {:induction false} JoinedShape(ts: seq<Tree>, bs: seq<BoundaryPolicy>)
    requires |bs| == |ts| - 1
    requires forall c | c in ts :: Shaped(c) && Flat(c)
    ensures |JoinSpines(ts)| >= |ts|
    ensures |JoinSeams(ts, bs)| == |JoinSpines(ts)| - 1
    ensures forall x | x in JoinSpines(ts) :: Shaped(x) && Flat(x) && !x.SerialTree?
  {
    var last := |ts| - 1;
    assert ts[last] in ts;
    if last == 0 {
      assert JoinSpines(ts) == JoinSpines([]) + Spine(ts[0]);
    } else {
      JoinedShape(ts[..last], bs[..last - 1]);
    }
  }

  lemma {:induction false} JoinedBranchShape(ts: seq<Tree>)
    requires forall c | c in ts :: Shaped(c) && Flat(c)
    ensures |JoinBranches(ts)| >= |ts|
    ensures forall x | x in JoinBranches(ts) :: Shaped(x) && Flat(x) && !x.ParallelTree?
  {
    if ts != [] {
      assert ts[|ts| - 1] in ts;
      JoinedBranchShape(ts[..|ts| - 1]);
    }
  }

  lemma {:induction false} NormalizeAllIsFlat(ts: seq<Tree>)
    requires forall c | c in ts :: Shaped(c) && Shaped(Normalize(c)) && Flat(Normalize(c))
    ensures forall c | c in NormalizeAll(ts) :: Shaped(c) && Flat(c)
  {
    var rs := NormalizeAll(ts);
    forall c | c in rs ensures Shaped(c) && Flat(c) {
      var k :| 0 <= k < |rs| && rs[k] == c;
      assert ts[k] in ts;
    }
  }

  /** Normalising gives a well-shaped tree without nested compositions. */
  lemma {:induction false} NormalizeIsFlat(t: Tree)
    requires Shaped(t)
    ensures Shaped(Normalize(t)) && Flat(Normalize(t))
    decreases t
  {
    match t
    case LeafTree(_, _) =>
    case InstanceTree(_, body, _) => NormalizeIsFlat(body);
    case LoopTree(body, _, _) => NormalizeIsFlat(body);
    case SerialTree(ts, bs, _) =>
      forall c | c in ts ensures Shaped(Normalize(c)) && Flat(Normalize(c)) {
        NormalizeIsFlat(c);
      }
      NormalizeAllIsFlat(ts);
      JoinedShape(NormalizeAll(ts), bs);
    case ParallelTree(ts, _) =>
      forall c | c in ts ensures Shaped(Normalize(c)) && Flat(Normalize(c)) {
        NormalizeIsFlat(c);
      }
      NormalizeAllIsFlat(ts);
      JoinedBranchShape(NormalizeAll(ts));
  }

  lemma FlatSpinesUnchanged(ts: seq<Tree>, bs: seq<BoundaryPolicy>)
    requires |bs| == |ts| - 1
    requires forall c | c in ts :: !c.SerialTree?
    ensures JoinSpines(ts) == ts && JoinSeams(ts, bs) == bs
  {
    OwnSpines(ts);
    OwnSeams(ts, bs);
  }

  lemma {:induction false} OwnSpines(ts: seq<Tree>)
    requires forall c | c in ts :: !c.SerialTree?
    ensures JoinSpines(ts) == ts
  {
    if ts != [] {
      var last := |ts| - 1;
      assert ts[last] in ts;
      OwnSpines(ts[..last]);
      assert ts == ts[..last] + [ts[last]];
    }
  }

  lemma {:induction false} OwnSeams(ts: seq<Tree>, bs: seq<BoundaryPolicy>)
    requires |bs| == |ts| - 1
    requires forall c | c in ts :: !c.SerialTree?
    ensures JoinSeams(ts, bs) == bs
  {
    var last := |ts| - 1;
    assert ts[last] in ts;
    if last > 0 {
      OwnSeams(ts[..last], bs[..last - 1]);
      assert bs == bs[..last - 1] + [bs[last - 1]];
    }
  }

  lemma {:induction false} FlatBranchesUnchanged(ts: seq<Tree>)
    requires forall c | c in ts :: !c.ParallelTree?
    ensures JoinBranches(ts) == ts
  {
    if ts != [] {
      var last := |ts| - 1;
      assert ts[last] in ts;
      assert ts == ts[..last] + [ts[last]];
      FlatBranchesUnchanged(ts[..last]);
    }
  }

  /** Flat trees are exactly the fixed points of normalising. */
  lemma {:induction false} FlatIffNormal(t: Tree)
    requires Shaped(t)
    ensures Flat(t) <==> Normalize(t) == t
    decreases t
  {
    NormalizeIsFlat(t);
    if Flat(t) {
      match t
      case LeafTree(_, _) =>
      case InstanceTree(_, body, _) => FlatIffNormal(body);
      case LoopTree(body, _, _) => FlatIffNormal(body);
      case SerialTree(ts, bs, _) =>
        forall k | 0 <= k < |ts| ensures Normalize(ts[k]) == ts[k] {
          FlatIffNormal(ts[k]);
        }
        assert NormalizeAll(ts) == ts;
        FlatSpinesUnchanged(ts, bs);
      case ParallelTree(ts, _) =>
        forall k | 0 <= k < |ts| ensures Normalize(ts[k]) == ts[k] {
          FlatIffNormal(ts[k]);
        }
        assert NormalizeAll(ts) == ts;
        FlatBranchesUnchanged(ts);
    }
  }

  // ---- associativity: only the operands and the boundaries between them matter

  /** The operands of a nest of Serial compositions, left to right, whatever the bracketing. */
  function SerialOperands(t: Tree): seq<Tree>
    decreases t, 1
  {
    if t.SerialTree? then SerialOperandsOf(t, |t.children|) else [t]
  }

  function SerialOperandsOf(t: Tree, n: nat): seq<Tree>
    requires t.SerialTree? && n <= |t.children|
    decreases t, 0, n
  {
    if n == 0 then [] else SerialOperandsOf(t, n - 1) + SerialOperands(t.children[n - 1])
  }

  /** The boundaries between neighbouring operands of the nest, left to right. */
  function SerialPolicies(t: Tree): seq<BoundaryPolicy>
    requires Shaped(t)
    decreases t, 1
  {
    if t.SerialTree? then SerialPoliciesOf(t, |t.children|) else []
  }

  function SerialPoliciesOf(t: Tree, n: nat): seq<BoundaryPolicy>
    requires t.SerialTree? && Shaped(t) && 1 <= n <= |t.children|
    decreases t, 0, n
  {
    if n == 1 then SerialPolicies(t.children[0])
    else SerialPoliciesOf(t, n - 1) + [t.boundaries[n - 2]] + SerialPolicies(t.children[n - 1])
  }

  function ParallelOperands(t: Tree): seq<Tree>
    decreases t, 1
  {
    if t.ParallelTree? then ParallelOperandsOf(t, |t.children|) else [t]
  }

  function ParallelOperandsOf(t: Tree, n: nat): seq<Tree>
    requires t.ParallelTree? && n <= |t.children|
    decreases t, 0, n
  {
    if n == 0 then [] else ParallelOperandsOf(t, n - 1) + ParallelOperands(t.children[n - 1])
  }

  lemma {:induction false} OperandsShaped(t: Tree)
    requires Shaped(t)
    ensures forall x | x in SerialOperands(t) :: Shaped(x) && !x.SerialTree?
    decreases t, 1
  {
    if t.SerialTree? {
      OperandsShapedOf(t, |t.children|);
    }
  }

  lemma {:induction false} OperandsShapedOf(t: Tree, n: nat)
    requires t.SerialTree? && Shaped(t) && n <= |t.children|
    ensures forall x | x in SerialOperandsOf(t, n) :: Shaped(x) && !x.SerialTree?
    decreases t, 0, n
  {
    if n > 0 {
      OperandsShapedOf(t, n - 1);
      OperandsShaped(t.children[n - 1]);
    }
  }

  lemma {:induction false} BranchesShaped(t: Tree)
    requires Shaped(t)
    ensures forall x | x in ParallelOperands(t) :: Shaped(x) && !x.ParallelTree?
    decreases t, 1
  {
    if t.ParallelTree? {
      BranchesShapedOf(t, |t.children|);
    }
  }

  lemma {:induction false} BranchesShapedOf(t: Tree, n: nat)
    requires t.ParallelTree? && Shaped(t) && n <= |t.children|
    ensures forall x | x in ParallelOperandsOf(t, n) :: Shaped(x) && !x.ParallelTree?
    decreases t, 0, n
  {
    if n > 0 {
      BranchesShapedOf(t, n - 1);
      BranchesShaped(t.children[n - 1]);
    }
  }

  lemma {:induction false} NormalizeAllAppend(xs: seq<Tree>, ys: seq<Tree>)
    requires forall c | c in xs + ys :: Shaped(c)
    requires (forall c | c in xs :: Shaped(c)) && forall c | c in ys :: Shaped(c)
    ensures NormalizeAll(xs + ys) == NormalizeAll(xs) + NormalizeAll(ys)
  {
  }

  /** The flat form of a Serial nest is determined by its operands and boundaries. */
  lemma {:induction false} SerialNormalForm(t: Tree)
    requires Shaped(t)
    ensures forall x | x in SerialOperands(t) :: Shaped(x)
    ensures Spine(Normalize(t)) == NormalizeAll(SerialOperands(t))
    decreases t, 1
  {
    OperandsShaped(t);
    if t.SerialTree? {
      SerialNormalFormOf(t, |t.children|);
      SerialWhole(t);
    } else {
      SingleOperand(t);
    }
  }

  lemma {:induction false} SerialSeams(t: Tree)
    requires Shaped(t)
    ensures Seams(Normalize(t)) == SerialPolicies(t)
    decreases t, 1
  {
    if t.SerialTree? {
      SerialSeamsOf(t, |t.children|);
      SerialWhole(t);
    } else {
      SingleOperand(t);
    }
  }

  lemma SerialWhole(t: Tree)
    requires t.SerialTree? && Shaped(t)
    ensures Spine(Normalize(t)) == JoinSpines(NormalizeAll(t.children[..|t.children|]))
    ensures Seams(Normalize(t)) == JoinSeams(NormalizeAll(t.children[..|t.children|]), t.boundaries[..|t.children| - 1])
    ensures SerialOperands(t) == SerialOperandsOf(t, |t.children|)
    ensures SerialPolicies(t) == SerialPoliciesOf(t, |t.children|)
  {
    assert t.children[..|t.children|] == t.children;
    assert t.boundaries[..|t.children| - 1] == t.boundaries;
  }

  lemma SingleOperand(t: Tree)
    requires Shaped(t)
    ensures NormalizeAll([t]) == [Normalize(t)]
    ensures !t.SerialTree? ==> Spine(Normalize(t)) == [Normalize(t)] && Seams(Normalize(t)) == []
    ensures !t.ParallelTree? ==> Branches(Normalize(t)) == [Normalize(t)]
  {
    NormalizeOne(t);
    NormalizeKeepsKind(t);
  }

  lemma NormalizeOne(t: Tree)
    requires Shaped(t)
    ensures NormalizeAll([t]) == [Normalize(t)]
  {
    assert |NormalizeAll([t])| == 1 && NormalizeAll([t])[0] == Normalize([t][0]);
  }

  lemma NormalizeKeepsKind(t: Tree)
    requires Shaped(t)
    ensures Normalize(t).SerialTree? ==> t.SerialTree?
    ensures Normalize(t).ParallelTree? ==> t.ParallelTree?
  {
  }

  lemma JoinSpinesPush(rs: seq<Tree>, r: Tree)
    ensures JoinSpines(rs + [r]) == JoinSpines(rs) + Spine(r)
  {
    assert (rs + [r])[..|rs|] == rs;
  }

  lemma JoinSeamsPush(rs: seq<Tree>, r: Tree, bs: seq<BoundaryPolicy>, b: BoundaryPolicy)
    requires |bs| == |rs| - 1
    ensures JoinSeams(rs + [r], bs + [b]) == JoinSeams(rs, bs) + [b] + Seams(r)
  {
    assert (rs + [r])[..|rs|] == rs;
    assert (bs + [b])[..|bs|] == bs;
  }

  lemma NormalizePrefix(ts: seq<Tree>, n: nat)
    requires 1 <= n <= |ts| && forall c | c in ts :: Shaped(c)
    ensures NormalizeAll(ts[..n]) == NormalizeAll(ts[..n - 1]) + [Normalize(ts[n - 1])]
  {
    assert ts[..n][..n - 1] == ts[..n - 1];
  }

  lemma {:induction false} SerialNormalFormOf(t: Tree, n: nat)
    requires t.SerialTree? && Shaped(t) && n <= |t.children|
    ensures forall x | x in SerialOperandsOf(t, n) :: Shaped(x)
    ensures JoinSpines(NormalizeAll(t.children[..n])) == NormalizeAll(SerialOperandsOf(t, n))
    decreases t, 0, n
  {
    OperandsShapedOf(t, n);
    if n > 0 {
      OperandsShapedOf(t, n - 1);
      var last := t.children[n - 1];
      SerialNormalForm(last);
      SerialNormalFormOf(t, n - 1);
      NormalizePrefix(t.children, n);
      JoinSpinesPush(NormalizeAll(t.children[..n - 1]), Normalize(last));
      NormalizeAllAppend(SerialOperandsOf(t, n - 1), SerialOperands(last));
    }
  }

  lemma {:induction false} SerialSeamsOf(t: Tree, n: nat)
    requires t.SerialTree? && Shaped(t) && 1 <= n <= |t.children|
    ensures JoinSeams(NormalizeAll(t.children[..n]), t.boundaries[..n - 1]) == SerialPoliciesOf(t, n)
    decreases t, 0, n
  {
    var last := t.children[n - 1];
    SerialSeams(last);
    NormalizePrefix(t.children, n);
    if n > 1 {
      SerialSeamsOf(t, n - 1);
      BoundaryPrefix(t.boundaries, n - 1);
      JoinSeamsPush(NormalizeAll(t.children[..n - 1]), Normalize(last), t.boundaries[..n - 2], t.boundaries[n - 2]);
    } else {
      SingleSeams(NormalizeAll(t.children[..0]), Normalize(last), t.boundaries[..0]);
    }
  }

  lemma BoundaryPrefix(bs: seq<BoundaryPolicy>, n: nat)
    requires 1 <= n <= |bs|
    ensures bs[..n] == bs[..n - 1] + [bs[n - 1]]
  {
  }

  lemma SingleSeams(before: seq<Tree>, r: Tree, bs: seq<BoundaryPolicy>)
    requires before == [] && bs == []
    ensures JoinSeams(before + [r], bs) == Seams(r)
  {
  }

  lemma {:induction false} ParallelNormalForm(t: Tree)
    requires Shaped(t)
    ensures forall x | x in ParallelOperands(t) :: Shaped(x)
    ensures Branches(Normalize(t)) == NormalizeAll(ParallelOperands(t))
    decreases t, 1
  {
    BranchesShaped(t);
    if t.ParallelTree? {
      ParallelNormalFormOf(t, |t.children|);
      ParallelWhole(t);
    } else {
      SingleOperand(t);
    }
  }

  lemma ParallelWhole(t: Tree)
    requires t.ParallelTree? && Shaped(t)
    ensures Branches(Normalize(t)) == JoinBranches(NormalizeAll(t.children[..|t.children|]))
    ensures ParallelOperands(t) == ParallelOperandsOf(t, |t.children|)
  {
    assert t.children[..|t.children|] == t.children;
  }

  lemma {:induction false} ParallelNormalFormOf(t: Tree, n: nat)
    requires t.ParallelTree? && Shaped(t) && n <= |t.children|
    ensures forall x | x in ParallelOperandsOf(t, n) :: Shaped(x)
    ensures JoinBranches(NormalizeAll(t.children[..n])) == NormalizeAll(ParallelOperandsOf(t, n))
    decreases t, 0, n
  {
    BranchesShapedOf(t, n);
    if n > 0 {
      BranchesShapedOf(t, n - 1);
      var last := t.children[n - 1];
      ParallelNormalForm(last);
      ParallelNormalFormOf(t, n - 1);
      ParallelStep(t, n, last);
    }
  }

  lemma ParallelStep(t: Tree, n: nat, last: Tree)
    requires t.ParallelTree? && Shaped(t) && 1 <= n <= |t.children| && last == t.children[n - 1]
    requires (forall x | x in ParallelOperandsOf(t, n - 1) :: Shaped(x)) && forall x | x in ParallelOperands(last) ::
      Shaped(x)
    requires forall x | x in ParallelOperandsOf(t, n) :: Shaped(x)
    requires JoinBranches(NormalizeAll(t.children[..n - 1])) == NormalizeAll(ParallelOperandsOf(t, n - 1))
    requires Branches(Normalize(last)) == NormalizeAll(ParallelOperands(last))
    ensures JoinBranches(NormalizeAll(t.children[..n])) == NormalizeAll(ParallelOperandsOf(t, n))
  {
    NormalizePrefix(t.children, n);
    JoinBranchesPush(NormalizeAll(t.children[..n - 1]), Normalize(last));
    NormalizeAllAppend(ParallelOperandsOf(t, n - 1), ParallelOperands(last));
  }

  lemma JoinBranchesPush(rs: seq<Tree>, r: Tree)
    ensures JoinBranches(rs + [r]) == JoinBranches(rs) + Branches(r)
  {
    assert (rs + [r])[..|rs|] == rs;
  }

  /** Any two bracketings of the same operands and boundaries have the same flat form. */
  lemma SerialBracketingIrrelevant(t: Tree, u: Tree)
    requires Shaped(t) && Shaped(u) && t.SerialTree? && u.SerialTree?
    requires SerialOperands(t) == SerialOperands(u) && SerialPolicies(t) == SerialPolicies(u)
    requires t.provenance == u.provenance
    ensures Normalize(t) == Normalize(u)
  {
    SerialNormalForm(t);
    SerialNormalForm(u);
    SerialSeams(t);
    SerialSeams(u);
  }

  lemma ParallelBracketingIrrelevant(t: Tree, u: Tree)
    requires Shaped(t) && Shaped(u) && t.ParallelTree? && u.ParallelTree?
    requires ParallelOperands(t) == ParallelOperands(u)
    requires t.provenance == u.provenance
    ensures Normalize(t) == Normalize(u)
  {
    ParallelNormalForm(t);
    ParallelNormalForm(u);
  }

  // ---- the timing algebra: flattening changes no duration and no frontier

  /** Signed displacement and furthest time reached, relative to the start. */
  datatype Timing = Timing(duration: int, frontier: int, rewinds: bool) {
    predicate Valid() {
      0 <= frontier && duration <= frontier
    }
  }

  /** Timings of leaves and of repeated bodies, as a target profile gives them. */
  datatype TimingModel = TimingModel(leaf: Leaf -> Timing, repeated: (Timing, ValueId) -> Timing) {
    ghost predicate Valid() {
      && (forall l :: leaf(l).Valid())
      && (forall t: Timing, n :: t.Valid() ==> repeated(t, n).Valid())
    }
  }

  function Max(x: int, y: int): int {
    if x < y then y else x
  }

  function Then(a: Timing, b: Timing): Timing {
    Timing(a.duration + b.duration, Max(a.frontier, a.duration + b.frontier), a.rewinds || b.rewinds)
  }

  function Beside(a: Timing, b: Timing): Timing {
    Timing(Max(a.duration, b.duration), Max(a.frontier, b.frontier), a.rewinds || b.rewinds)
  }

  function TimeOf(m: TimingModel, t: Tree): Timing
    decreases t, 1
  {
    match t
    case LeafTree(leaf, _) => m.leaf(leaf)
    case InstanceTree(_, body, _) => TimeOf(m, body)
    case LoopTree(body, count, _) => m.repeated(TimeOf(m, body), count)
    case SerialTree(ts, _, _) => SerialTime(m, ts)
    case ParallelTree(ts, _) => if ts == [] then Timing(0, 0, false) else ParallelTime(m, ts)
  }

  function SerialTime(m: TimingModel, ts: seq<Tree>): Timing
    decreases ts, 0
  {
    if ts == [] then Timing(0, 0, false)
    else Then(SerialTime(m, ts[..|ts| - 1]), TimeOf(m, ts[|ts| - 1]))
  }

  function ParallelTime(m: TimingModel, ts: seq<Tree>): Timing
    requires ts != []
    decreases ts, 0
  {
    var last := |ts| - 1;
    if last == 0 then TimeOf(m, ts[0])
    else Beside(ParallelTime(m, ts[..last]), TimeOf(m, ts[last]))
  }

  lemma {:induction false} TimeIsValid(m: TimingModel, t: Tree)
    requires m.Valid()
    ensures TimeOf(m, t).Valid()
    decreases t, 1
  {
    match t
    case LeafTree(_, _) =>
    case InstanceTree(_, body, _) => TimeIsValid(m, body);
    case LoopTree(body, _, _) => TimeIsValid(m, body);
    case SerialTree(ts, _, _) => TimesAreValid(m, ts);
    case ParallelTree(ts, _) => TimesAreValid(m, ts);
  }

  lemma {:induction false} TimesAreValid(m: TimingModel, ts: seq<Tree>)
    requires m.Valid()
    ensures SerialTime(m, ts).Valid()
    ensures ts != [] ==> ParallelTime(m, ts).Valid()
    decreases ts, 0
  {
    if ts != [] {
      var last := |ts| - 1;
      TimesAreValid(m, ts[..last]);
      TimeIsValid(m, ts[last]);
    }
  }

  lemma {:induction false} SerialTimeAppend(m: TimingModel, xs: seq<Tree>, ys: seq<Tree>)
    requires m.Valid()
    ensures SerialTime(m, xs + ys) == Then(SerialTime(m, xs), SerialTime(m, ys))
    decreases |ys|
  {
    TimesAreValid(m, xs);
    if ys == [] {
      assert xs + ys == xs;
    } else {
      var last := |ys| - 1;
      assert (xs + ys)[..|xs + ys| - 1] == xs + ys[..last];
      SerialTimeAppend(m, xs, ys[..last]);
    }
  }

  lemma {:induction false} ParallelTimeAppend(m: TimingModel, xs: seq<Tree>, ys: seq<Tree>)
    requires xs != [] && ys != []
    ensures ParallelTime(m, xs + ys) == Beside(ParallelTime(m, xs), ParallelTime(m, ys))
    decreases |ys|
  {
    var last := |ys| - 1;
    assert (xs + ys)[..|xs + ys| - 1] == xs + ys[..last];
    if last == 0 {
      assert xs + ys[..0] == xs;
    } else {
      ParallelTimeAppend(m, xs, ys[..last]);
    }
  }

  lemma {:induction false} JoinSpinesTime(m: TimingModel, ts: seq<Tree>)
    requires m.Valid()
    ensures SerialTime(m, JoinSpines(ts)) == SerialTime(m, ts)
  {
    if ts != [] {
      var init, t := ts[..|ts| - 1], ts[|ts| - 1];
      JoinSpinesTime(m, init);
      SerialTimeAppend(m, JoinSpines(init), Spine(t));
      SpineTime(m, t);
    }
  }

  lemma SpineTime(m: TimingModel, t: Tree)
    requires m.Valid()
    ensures SerialTime(m, Spine(t)) == TimeOf(m, t)
  {
    if !t.SerialTree? {
      TimeIsValid(m, t);
      assert [t][..0] == [];
      assert SerialTime(m, [t]) == Then(SerialTime(m, []), TimeOf(m, t));
    }
  }

  lemma {:induction false} JoinBranchesTime(m: TimingModel, ts: seq<Tree>)
    requires ts != [] && forall c | c in ts :: Shaped(c)
    ensures JoinBranches(ts) != [] && ParallelTime(m, JoinBranches(ts)) == ParallelTime(m, ts)
  {
    var init, t := ts[..|ts| - 1], ts[|ts| - 1];
    assert t in ts;
    assert Branches(t) != [] && ParallelTime(m, Branches(t)) == TimeOf(m, t);
    if init == [] {
      assert JoinBranches(ts) == JoinBranches([]) + Branches(t) == Branches(t);
    } else {
      JoinBranchesTime(m, init);
      ParallelTimeAppend(m, JoinBranches(init), Branches(t));
    }
  }

  lemma {:induction false} PointwiseTime(m: TimingModel, ts: seq<Tree>, us: seq<Tree>)
    requires |ts| == |us| && forall k :: 0 <= k < |ts| ==> TimeOf(m, ts[k]) == TimeOf(m, us[k])
    ensures SerialTime(m, ts) == SerialTime(m, us)
    ensures ts != [] ==> ParallelTime(m, ts) == ParallelTime(m, us)
  {
    if ts != [] {
      PointwiseTime(m, ts[..|ts| - 1], us[..|us| - 1]);
    }
  }

  /** Flattening preserves duration, frontier and rewinding under every timing model. */
  lemma {:induction false} NormalizePreservesTime(m: TimingModel, t: Tree)
    requires m.Valid() && Shaped(t)
    ensures TimeOf(m, Normalize(t)) == TimeOf(m, t)
    decreases t
  {
    match t
    case LeafTree(_, _) =>
    case InstanceTree(_, body, _) => NormalizePreservesTime(m, body);
    case LoopTree(body, _, _) => NormalizePreservesTime(m, body);
    case SerialTree(ts, _, _) =>
      var rs := NormalizeAll(ts);
      forall k | 0 <= k < |ts| ensures TimeOf(m, ts[k]) == TimeOf(m, rs[k]) {
        NormalizePreservesTime(m, ts[k]);
      }
      PointwiseTime(m, ts, rs);
      JoinSpinesTime(m, rs);
    case ParallelTree(ts, _) =>
      var rs := NormalizeAll(ts);
      forall k | 0 <= k < |ts| ensures TimeOf(m, ts[k]) == TimeOf(m, rs[k]) && Shaped(rs[k]) {
        NormalizePreservesTime(m, ts[k]);
        NormalizeIsFlat(ts[k]);
      }
      PointwiseTime(m, ts, rs);
      JoinBranchesTime(m, rs);
  }
}
