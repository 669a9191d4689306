/** Lowering source expressions into the store: an explicit stack and a memo table against a recursive meaning. */
module ArenaLowering {
  import opened Common
  import opened Store

  datatype Composition = AutoSerialOf | StrictSerialOf | ParallelOf

  function ArenaKind(kind: Composition): NodeKind {
    match kind
    case AutoSerialOf => AutoSerial
    case StrictSerialOf => StrictSerial
    case ParallelOf => Parallel
  }

  datatype HirKind = CallExpression | Composed(kind: Composition, left: nat, right: nat) | Dictionary(entries: nat)
    | Scalar

  datatype Hir = Hir(expressions: seq<HirKind>, root: nat)

  /** Expressions are appended after their parts. */
  predicate HirOk(h: Hir) {
    && h.root < |h.expressions|
    && forall e :: 0 <= e < |h.expressions| && h.expressions[e].Composed? ==>
      h.expressions[e].left < e && h.expressions[e].right < e
  }

  /** A serial composition with a dictionary on the right applies it; an empty one does nothing. */
  predicate AppliesDictionary(h: Hir, e: nat)
    requires HirOk(h) && e < |h.expressions|
  {
    && h.expressions[e].Composed? && h.expressions[e].kind == AutoSerialOf
    && h.expressions[h.expressions[e].right].Dictionary?
  }

  predicate IsAlias(h: Hir, e: nat)
    requires HirOk(h) && e < |h.expressions|
  {
    AppliesDictionary(h, e) && h.expressions[h.expressions[e].right].entries == 0
  }

  /** The parts that must be lowered before an expression. */
  function Parts(h: Hir, e: nat): (ps: seq<nat>)
    requires HirOk(h) && e < |h.expressions|
    ensures forall k :: 0 <= k < |ps| ==> ps[k] < e
  {
    if !h.expressions[e].Composed? then []
    else if AppliesDictionary(h, e) then [h.expressions[e].left]
    else [h.expressions[e].left, h.expressions[e].right]
  }

  predicate IsMorphismKind(h: Hir, e: nat)
    requires e < |h.expressions|
  {
    h.expressions[e].CallExpression? || h.expressions[e].Composed?
  }

  /** The expression and all its parts, however deep, produce a Morphism. */
  predicate IsMorphism(h: Hir, e: nat)
    requires HirOk(h) && e < |h.expressions|
    decreases e
  {
    match h.expressions[e]
    case CallExpression => true
    case Composed(kind, left, right) =>
      && IsMorphism(h, left)
      && ((kind == AutoSerialOf && h.expressions[right].Dictionary?) || IsMorphism(h, right))
    case _ => false
  }

  // ---- the recursive meaning

  datatype SourceTree =
    | CallTree(expression: nat)
    | ComposeTree(kind: Composition, left: SourceTree, right: SourceTree, expression: nat)
    | DeferredTree(left: SourceTree, dictionary: nat, expression: nat)

  function Meaning(h: Hir, e: nat): SourceTree
    requires HirOk(h) && e < |h.expressions| && IsMorphism(h, e)
    decreases e
  {
    match h.expressions[e]
    case CallExpression => CallTree(e)
    case Composed(kind, left, right) =>
      if kind == AutoSerialOf && h.expressions[right].Dictionary? then
        if h.expressions[right].entries == 0 then Meaning(h, left) else DeferredTree(Meaning(h, left), right, e)
      else ComposeTree(kind, Meaning(h, left), Meaning(h, right), e)
    case _ => CallTree(e)
  }

  /** The node is a composition of the same kind. */
  predicate ComposesAs(kind: Composition, n: Node, e: nat) {
    && n.left.Some? && n.right.Some? && n == Node(n.kind, n.left, n.right, 0, 0, e)
    && (kind == AutoSerialOf ==> n.kind == AutoSerial) && (kind == StrictSerialOf ==> n.kind == StrictSerial)
    && (kind == ParallelOf ==> n.kind == Parallel)
  }

  /** The node and what it refers to spell out the tree. */
  predicate Denotes(id: nat, s: Inner, r: NodeRef, t: SourceTree)
    decreases t
  {
    && Exists(id, s, r)
    && var n := NodeFrom(id, s, r).value;
      match t
      case CallTree(e) => n == Node(SourceCall, None, None, e, 0, e)
      case ComposeTree(kind, left, right, e) =>
        && ComposesAs(kind, n, e)
        && Denotes(id, s, n.left.value, left) && Denotes(id, s, n.right.value, right)
      case DeferredTree(left, dictionary, e) =>
        && n.left.Some? && n == Node(DeferredApply, n.left, None, dictionary, 0, e) &&
          Denotes(id, s, n.left.value, left)
  }

  lemma {:induction false} DenotesStays(id: nat, s: Inner, s': Inner, r: NodeRef, t: SourceTree)
    requires Grows(s, s') && Denotes(id, s, r, t)
    ensures Denotes(id, s', r, t)
    decreases t
  {
    NodeStays(id, s, s', r);
    var n := NodeFrom(id, s, r).value;
    match t
    case CallTree(_) =>
    case ComposeTree(_, left, right, _) =>
      DenotesStays(id, s, s', n.left.value, left);
      DenotesStays(id, s, s', n.right.value, right);
    case DeferredTree(left, _, _) => DenotesStays(id, s, s', n.left.value, left);
  }

  // ---- what is reached

  ghost predicate ReachedIn(h: Hir, e: nat, n: nat)
    requires HirOk(h)
    decreases n
  {
    && e < |h.expressions|
    && (e == h.root || (n > 0 && exists p: nat :: p < |h.expressions| && ReachedIn(h, p, n - 1) && e in Parts(h, p)))
  }

  ghost predicate Reached(h: Hir, e: nat)
    requires HirOk(h)
  {
    exists n: nat :: ReachedIn(h, e, n)
  }

  lemma RootReached(h: Hir)
    requires HirOk(h)
    ensures Reached(h, h.root)
  {
    assert ReachedIn(h, h.root, 0);
  }

  lemma PartReached(h: Hir, p: nat, e: nat)
    requires HirOk(h) && p < |h.expressions| && Reached(h, p) && e in Parts(h, p)
    ensures Reached(h, e)
  {
    var n: nat :| ReachedIn(h, p, n);
    assert ReachedIn(h, e, n + 1);
  }

  /** A set that holds the root and, with an expression, its parts, holds everything reached. */
  lemma {:induction false} ReachedInClosed(h: Hir, closed: set<nat>, e: nat, n: nat)
    requires HirOk(h) && h.root in closed && ReachedIn(h, e, n)
    requires forall x: nat, y: nat :: x in closed && x < |h.expressions| && y in Parts(h, x) ==> y in closed
    ensures e in closed
    decreases n
  {
    if e != h.root {
      var p: nat :| p < |h.expressions| && ReachedIn(h, p, n - 1) && e in Parts(h, p);
      ReachedInClosed(h, closed, p, n - 1);
    }
  }

  lemma {:induction false} MorphismBelow(h: Hir, e: nat, n: nat)
    requires HirOk(h) && IsMorphism(h, h.root) && ReachedIn(h, e, n)
    ensures IsMorphism(h, e)
    decreases n
  {
    if e != h.root {
      var p: nat :| p < |h.expressions| && ReachedIn(h, p, n - 1) && e in Parts(h, p);
      MorphismBelow(h, p, n - 1);
    }
  }

  /** The root is a Morphism all the way down exactly when everything reached is a call or a composition. */
  lemma {:induction false} MorphismFromKinds(h: Hir, e: nat)
    requires HirOk(h) && Reached(h, e) && e < |h.expressions|
    requires forall x: nat :: x < |h.expressions| && Reached(h, x) ==> IsMorphismKind(h, x)
    ensures IsMorphism(h, e)
    decreases e
  {
    if h.expressions[e].Composed? {
      var left, right := h.expressions[e].left, h.expressions[e].right;
      assert left == Parts(h, e)[0];
      PartReached(h, e, left);
      MorphismFromKinds(h, left);
      if !AppliesDictionary(h, e) {
        assert right == Parts(h, e)[1];
        PartReached(h, e, right);
        MorphismFromKinds(h, right);
      }
    } else {
      assert IsMorphismKind(h, e);
    }
  }

  // ---- validation

  ghost function UpTo(n: nat): (all: set<nat>)
    ensures forall e: nat :: e in all <==> e < n
  {
    if n == 0 then {} else UpTo(n - 1) + {n - 1}
  }

  /** Everything in sight is reached, what was seen is a call or a composition, and no part is forgotten. */
  ghost predicate Validated(h: Hir, seen: set<nat>, stack: seq<nat>)
    requires HirOk(h)
  {
    && (forall k :: 0 <= k < |stack| ==> stack[k] < |h.expressions| && Reached(h, stack[k]))
    && (forall e: nat :: e in seen ==> e < |h.expressions| && IsMorphismKind(h, e))
    && (forall x: nat, y: nat :: x in seen && x < |h.expressions| && y in Parts(h, x) ==> y in seen || y in stack)
    && (h.root in seen || h.root in stack)
  }

  lemma ValidatedSkip(h: Hir, seen: set<nat>, rest: seq<nat>, e: nat)
    requires HirOk(h) && Validated(h, seen, rest + [e]) && e in seen
    ensures Validated(h, seen, rest)
  {
    forall k | 0 <= k < |rest|
      ensures rest[k] < |h.expressions| && Reached(h, rest[k])
    {
      assert (rest + [e])[k] == rest[k];
    }
  }

  lemma ValidatedVisit(h: Hir, seen: set<nat>, rest: seq<nat>, e: nat)
    requires HirOk(h) && Validated(h, seen, rest + [e]) && e < |h.expressions| && Reached(h, e) && IsMorphismKind(h, e)
    ensures Validated(h, seen + {e}, rest + Parts(h, e))
  {
    var parts := Parts(h, e);
    forall k | 0 <= k < |parts|
      ensures parts[k] < |h.expressions| && Reached(h, parts[k])
    {
      PartReached(h, e, parts[k]);
    }
    forall k | 0 <= k < |rest|
      ensures rest[k] < |h.expressions| && Reached(h, rest[k])
    {
      assert (rest + [e])[k] == rest[k];
    }
    forall x: nat, y: nat | x in seen + {e} && x < |h.expressions| && y in Parts(h, x)
      ensures y in seen + {e} || y in rest + parts
    {
      if x != e {
        assert y in seen || y in rest + [e];
      }
    }
  }

  lemma ValidatedAll(h: Hir, seen: set<nat>)
    requires HirOk(h) && Validated(h, seen, [])
    ensures IsMorphism(h, h.root)
  {
    forall x: nat | x < |h.expressions| && Reached(h, x)
      ensures IsMorphismKind(h, x)
    {
      var n: nat :| ReachedIn(h, x, n);
      ReachedInClosed(h, seen, x, n);
    }
    RootReached(h);
    MorphismFromKinds(h, h.root);
  }

  method ValidateMorphismGraph(h: Hir) returns (r: Result<(), nat>)
    requires HirOk(h)
    ensures r.Ok? <==> IsMorphism(h, h.root)
    ensures r.Err? ==> r.error < |h.expressions| && Reached(h, r.error) && !IsMorphismKind(h, r.error)
  {
    var seen: set<nat> := {};
    ghost var all := UpTo(|h.expressions|);
    var stack: seq<nat> := [h.root];
    RootReached(h);
    while stack != []
      invariant seen <= all && Validated(h, seen, stack)
      decreases |all - seen|, |stack|
    {
      var e := stack[|stack| - 1];
      var rest := stack[..|stack| - 1];
      assert stack == rest + [e];
      if e in seen {
        ValidatedSkip(h, seen, rest, e);
        stack := rest;
      } else if !IsMorphismKind(h, e) {
        NotMorphism(h, e);
        return Err(e);
      } else {
        assert all - (seen + {e}) == (all - seen) - {e} && e in all - seen;
        ValidatedVisit(h, seen, rest, e);
        seen := seen + {e};
        stack := rest + Parts(h, e);
      }
    }
    ValidatedAll(h, seen);
    return Ok(());
  }

  lemma NotMorphism(h: Hir, e: nat)
    requires HirOk(h) && Reached(h, e) && e < |h.expressions| && !IsMorphismKind(h, e)
    ensures !IsMorphism(h, h.root)
  {
    if IsMorphism(h, h.root) {
      var n: nat :| ReachedIn(h, e, n);
      MorphismBelow(h, e, n);
    }
  }

  // ---- the explicit stack

  datatype Work =
    | Enter(expression: nat)
    | Alias(expression: nat, target: nat)
    | ComposeLater(expression: nat, kind: Composition, left: nat, right: nat)
    | DeferredApplyLater(expression: nat, left: nat, dictionary: nat)

  /** The work that finishes a composition once its parts are lowered. */
  function Finishing(h: Hir, e: nat): Work
    requires HirOk(h) && e < |h.expressions| && h.expressions[e].Composed?
  {
    var x := h.expressions[e];
    if IsAlias(h, e) then Alias(e, x.left)
    else if AppliesDictionary(h, e) then DeferredApplyLater(e, x.left, x.right)
    else ComposeLater(e, x.kind, x.left, x.right)
  }

  predicate WorkOk(h: Hir, w: Work)
    requires HirOk(h)
  {
    && w.expression < |h.expressions| && IsMorphism(h, w.expression)
    && (w.Enter? || (h.expressions[w.expression].Composed? && w == Finishing(h, w.expression)))
  }

  /** Some work from position p up is about the expression. */
  ghost predicate Awaited(work: seq<Work>, p: nat, e: nat) {
    exists q :: p <= q < |work| && work[q].expression == e
  }

  /** The stack is in order: what a finishing item waits for is lowered or above it, and everything above it is
      smaller, so nothing is finished twice. */
  ghost predicate StackOk(h: Hir, work: seq<Work>, lowered: set<nat>)
    requires HirOk(h)
  {
    && (forall p :: 0 <= p < |work| ==> WorkOk(h, work[p]) && Reached(h, work[p].expression))
    && (forall p :: 0 <= p < |work| && !work[p].Enter? ==> work[p].expression !in lowered)
    && (forall p, q :: 0 <= p < q < |work| && !work[p].Enter? ==> work[q].expression < work[p].expression)
    && (forall p, e | 0 <= p < |work| && !work[p].Enter? && e in Parts(h, work[p].expression) ::
      e in lowered || Awaited(work, p + 1, e))
    && (h.root in lowered || Awaited(work, 0, h.root))
  }

  /** What has been lowered is reached, closed under parts, and means what the recursion says. */
  ghost predicate LoweredOk(h: Hir, id: nat, s: Inner, segment: SegmentId, lowered: map<nat, NodeRef>)
    requires HirOk(h)
  {
    && (forall e: nat :: e in lowered ==> e < |h.expressions| && IsMorphism(h, e) && Reached(h, e))
    && (forall e: nat, x: nat :: e in lowered && e < |h.expressions| && x in Parts(h, e) ==> x in lowered)
    && MeansOk(h, id, s, segment, lowered)
  }

  ghost predicate MeansOk(h: Hir, id: nat, s: Inner, segment: SegmentId, lowered: map<nat, NodeRef>)
    requires HirOk(h)
  {
    forall e: nat {:trigger lowered[e]} :: e in lowered && e < |h.expressions| && IsMorphism(h, e) ==>
      lowered[e].Segment() == segment && Denotes(id, s, lowered[e], Meaning(h, e))
  }

  /** The nodes this lowering appended: one for every lowered expression that is no alias, each once. */
  ghost predicate AppendedOnce(h: Hir, own: seq<Node>, lowered: map<nat, NodeRef>)
    requires HirOk(h)
  {
    && (forall j, k :: 0 <= j < k < |own| ==> own[j].provenance != own[k].provenance)
    && (forall k :: 0 <= k < |own| ==>
          own[k].provenance in lowered && own[k].provenance < |h.expressions| && !IsAlias(h, own[k].provenance))
    && (forall e: nat :: e in lowered && e < |h.expressions| && !IsAlias(h, e) ==>
          exists k :: 0 <= k < |own| && own[k].provenance == e)
  }

  // ---- stack steps

  lemma SkipLowered(h: Hir, work: seq<Work>, lowered: set<nat>)
    requires HirOk(h) && work != [] && StackOk(h, work, lowered)
    requires work[|work| - 1].expression in lowered
    ensures StackOk(h, work[..|work| - 1], lowered)
  {
    DropTop(h, work, lowered, lowered);
  }

  /** The top is done: its expression is lowered now. */
  lemma DropTop(h: Hir, work: seq<Work>, lowered: set<nat>, lowered': set<nat>)
    requires HirOk(h) && work != [] && StackOk(h, work, lowered)
    requires lowered' == lowered + {work[|work| - 1].expression}
    ensures StackOk(h, work[..|work| - 1], lowered')
  {
    var rest, top := work[..|work| - 1], work[|work| - 1];
    forall p, e | 0 <= p < |rest| && !rest[p].Enter? && e in Parts(h, rest[p].expression)
      ensures e in lowered' || Awaited(rest, p + 1, e)
    {
      assert work[p] == rest[p];
      StillAwaited(work, p + 1, e);
    }
    StillAwaited(work, 0, h.root);
    forall p | 0 <= p < |rest|
      ensures WorkOk(h, rest[p]) && Reached(h, rest[p].expression)
      ensures !rest[p].Enter? ==> rest[p].expression !in lowered'
    {
      assert work[p] == rest[p];
    }
    forall p, q | 0 <= p < q < |rest| && !rest[p].Enter?
      ensures rest[q].expression < rest[p].expression
    {
      assert work[p] == rest[p] && work[q] == rest[q];
    }
  }

  lemma StillAwaited(work: seq<Work>, p: nat, e: nat)
    requires work != []
    ensures Awaited(work, p, e) ==> e == work[|work| - 1].expression || Awaited(work[..|work| - 1], p, e)
  {
    if Awaited(work, p, e) && e != work[|work| - 1].expression {
      var q :| p <= q < |work| && work[q].expression == e;
      assert work[..|work| - 1][q] == work[q];
    }
  }

  /** The parts to enter, the left one on top. */
  function Entering(h: Hir, e: nat): (ws: seq<Work>)
    requires HirOk(h) && e < |h.expressions| && h.expressions[e].Composed?
    ensures |ws| == |Parts(h, e)|
    ensures forall k :: 0 <= k < |ws| ==> ws[k].Enter? && ws[k].expression in Parts(h, e)
    ensures forall x: nat :: x in Parts(h, e) ==> exists k :: 0 <= k < |ws| && ws[k].expression == x
  {
    var left, right := h.expressions[e].left, h.expressions[e].right;
    if AppliesDictionary(h, e) then
      assert Parts(h, e) == [left];
      var ws := [Enter(left)];
      assert ws[0].expression == left;
      ws
    else
      assert Parts(h, e) == [left, right];
      var ws := [Enter(right), Enter(left)];
      assert ws[0].expression == right && ws[1].expression == left;
      ws
  }

  lemma PartsAreMorphisms(h: Hir, e: nat, x: nat)
    requires HirOk(h) && e < |h.expressions| && IsMorphism(h, e) && Reached(h, e) && x in Parts(h, e)
    ensures x < e && IsMorphism(h, x) && Reached(h, x)
  {
    PartReached(h, e, x);
  }

  /** All work of the expanded stack is on reached morphisms, and what was entered is below `e`. */
  lemma ExpandedWork(h: Hir, rest: seq<Work>, e: nat, lowered: set<nat>, p: nat)
    requires HirOk(h) && StackOk(h, rest + [Enter(e)], lowered)
    requires e < |h.expressions| && h.expressions[e].Composed?
    requires p < |rest + [Finishing(h, e)] + Entering(h, e)|
    ensures var w := (rest + [Finishing(h, e)] + Entering(h, e))[p];
      WorkOk(h, w) && Reached(h, w.expression) && (p > |rest| ==> w.Enter? && w.expression < e)
  {
    var work, work' := rest + [Enter(e)], rest + [Finishing(h, e)] + Entering(h, e);
    assert work[|rest|] == Enter(e);
    if p > |rest| {
      assert work'[p] == Entering(h, e)[p - |rest| - 1];
      PartsAreMorphisms(h, e, work'[p].expression);
    } else if p < |rest| {
      assert work'[p] == work[p];
    }
  }

  /** What the expanded stack is to finish waits for what is lowered or above. */
  lemma ExpandedParts(h: Hir, rest: seq<Work>, e: nat, lowered: set<nat>, p: nat, x: nat)
    requires HirOk(h) && StackOk(h, rest + [Enter(e)], lowered)
    requires e < |h.expressions| && h.expressions[e].Composed? && p <= |rest|
    requires var w := (rest + [Finishing(h, e)] + Entering(h, e))[p];
      !w.Enter? && WorkOk(h, w) && x in Parts(h, w.expression)
    ensures x in lowered || Awaited(rest + [Finishing(h, e)] + Entering(h, e), p + 1, x)
  {
    var work, enters := rest + [Enter(e)], Entering(h, e);
    var work' := rest + [Finishing(h, e)] + enters;
    if p == |rest| {
      var k :| 0 <= k < |enters| && enters[k].expression == x;
      assert work'[|rest| + 1 + k].expression == x;
    } else {
      assert work'[p] == work[p];
      assert x in lowered || Awaited(work, p + 1, x);
      SameBelow(work, work', |rest|);
    }
  }

  /** The top is a composition to be lowered: its finishing work, and its parts above it. */
  lemma ExpandTop(h: Hir, rest: seq<Work>, e: nat, lowered: set<nat>)
    requires HirOk(h) && StackOk(h, rest + [Enter(e)], lowered) && e !in lowered
    requires e < |h.expressions| && h.expressions[e].Composed?
    ensures StackOk(h, rest + [Finishing(h, e)] + Entering(h, e), lowered)
  {
    var work, work' := rest + [Enter(e)], rest + [Finishing(h, e)] + Entering(h, e);
    assert work[|rest|] == Enter(e) && forall p :: 0 <= p < |rest| ==> work'[p] == work[p];
    forall p: nat | p < |work'|
      ensures WorkOk(h, work'[p]) && Reached(h, work'[p].expression)
      ensures p > |rest| ==> work'[p].Enter? && work'[p].expression < e
    {
      ExpandedWork(h, rest, e, lowered, p);
    }
    forall p: nat, x | p < |work'| && !work'[p].Enter? && x in Parts(h, work'[p].expression)
      ensures x in lowered || Awaited(work', p + 1, x)
    {
      ExpandedParts(h, rest, e, lowered, p, x);
    }
    SameBelow(work, work', |rest|);
    assert h.root in lowered || Awaited(work, 0, h.root);
  }

  /** Replacing the top by work on the same expression, and more above it, keeps everything awaited. */
  lemma SameBelow(work: seq<Work>, work': seq<Work>, n: nat)
    requires |work| == n + 1 <= |work'| && (forall p :: 0 <= p < n ==> work'[p] == work[p])
    requires work'[n].expression == work[n].expression
    ensures forall p: nat, x: nat :: Awaited(work, p, x) ==> Awaited(work', p, x)
  {
    forall p: nat, x: nat | Awaited(work, p, x)
      ensures Awaited(work', p, x)
    {
      var q :| p <= q < |work| && work[q].expression == x;
      assert work'[q].expression == x;
    }
  }

  // ---- termination: an entered expression weighs more than its finishing and its parts

  function Weight(h: Hir, e: nat): nat
    requires HirOk(h) && e < |h.expressions|
    decreases e
  {
    if !h.expressions[e].Composed? then 1
    else if AppliesDictionary(h, e) then 2 + Weight(h, h.expressions[e].left)
    else 2 + Weight(h, h.expressions[e].left) + Weight(h, h.expressions[e].right)
  }

  function StackWeight(h: Hir, work: seq<Work>): nat
    requires HirOk(h)
  {
    if work == [] then 0 else
      var top := work[|work| - 1];
      StackWeight(h, work[..|work| - 1]) + if top.Enter? && top.expression < |h.expressions|
        then Weight(h, top.expression) else 1
  }

  lemma WeightPushed(h: Hir, work: seq<Work>, w: Work)
    requires HirOk(h)
    ensures StackWeight(h, work + [w]) ==
      StackWeight(h, work) + if w.Enter? && w.expression < |h.expressions| then Weight(h, w.expression) else 1
  {
    assert (work + [w])[..|work|] == work;
  }

  lemma EnteringWeight(h: Hir, base: seq<Work>, e: nat)
    requires HirOk(h) && e < |h.expressions| && h.expressions[e].Composed?
    ensures StackWeight(h, base + Entering(h, e)) == StackWeight(h, base) + Weight(h, e) - 2
  {
    var left, right := h.expressions[e].left, h.expressions[e].right;
    if AppliesDictionary(h, e) {
      WeightPushed(h, base, Enter(left));
    } else {
      WeightPushed(h, base, Enter(right));
      WeightPushed(h, base + [Enter(right)], Enter(left));
      TwoPushed(base, Enter(right), Enter(left));
    }
  }

  lemma TwoPushed(base: seq<Work>, v: Work, w: Work)
    ensures base + [v, w] == base + [v] + [w]
  {
  }

  lemma ExpandIsLighter(h: Hir, rest: seq<Work>, e: nat)
    requires HirOk(h) && e < |h.expressions| && h.expressions[e].Composed?
    ensures StackWeight(h, rest + [Finishing(h, e)] + Entering(h, e)) < StackWeight(h, rest + [Enter(e)])
  {
    WeightPushed(h, rest, Enter(e));
    WeightPushed(h, rest, Finishing(h, e));
    EnteringWeight(h, rest + [Finishing(h, e)], e);
  }

  // ---- the run of the store during one lowering

  /** What happened to the store: an append of this lowering, or a step of another thread. */
  datatype Event = Mine(node: Node) | Theirs(step: Step)

  function Steps(segment: SegmentId, log: seq<Event>): seq<Step> {
    seq(|log|, k requires 0 <= k < |log| => if log[k].Mine? then AppendNode(segment, log[k].node) else log[k].step)
  }

  /** The nodes this lowering appended, in order. */
  function Own(log: seq<Event>): seq<Node> {
    if log == [] then []
    else Own(log[..|log| - 1]) + if log[|log| - 1].Mine? then [log[|log| - 1].node] else []
  }

  predicate AllMine(log: seq<Event>) {
    forall k :: 0 <= k < |log| ==> log[k].Mine?
  }

  function ByOthers(others: seq<Step>): seq<Event> {
    seq(|others|, k requires 0 <= k < |others| => Theirs(others[k]))
  }

  /** The store is what these events made of it. */
  ghost predicate Tells(id: nat, start: Inner, segment: SegmentId, log: seq<Event>, s: Inner) {
    s == AfterSteps(id, start, Steps(segment, log))
  }

  lemma {:induction false} AfterMore(id: nat, s: Inner, xs: seq<Step>, ys: seq<Step>)
    ensures AfterSteps(id, s, xs + ys) == AfterSteps(id, AfterSteps(id, s, xs), ys)
    decreases |xs|
  {
    if xs == [] {
      assert xs + ys == ys;
    } else {
      assert (xs + ys)[0] == xs[0] && (xs + ys)[1..] == xs[1..] + ys;
      AfterMore(id, AfterStep(id, s, xs[0]), xs[1..], ys);
    }
  }

  lemma {:induction false} OwnByOthers(log: seq<Event>, others: seq<Step>)
    ensures Own(log + ByOthers(others)) == Own(log)
    decreases |others|
  {
    if others == [] {
      assert log + ByOthers(others) == log;
    } else {
      var shorter := others[..|others| - 1];
      OwnByOthers(log, shorter);
      assert (log + ByOthers(others))[..|log| + |others| - 1] == log + ByOthers(shorter);
    }
  }

  lemma OwnMine(log: seq<Event>, n: Node)
    ensures Own(log + [Mine(n)]) == Own(log) + [n]
  {
    assert (log + [Mine(n)])[..|log|] == log;
  }

  lemma TellsOthers(id: nat, start: Inner, segment: SegmentId, log: seq<Event>, s: Inner, others: seq<Step>)
    requires Tells(id, start, segment, log, s)
    ensures Tells(id, start, segment, log + ByOthers(others), AfterSteps(id, s, others))
  {
    AfterMore(id, start, Steps(segment, log), others);
    assert Steps(segment, log + ByOthers(others)) == Steps(segment, log) + others;
  }

  lemma TellsMine(id: nat, start: Inner, segment: SegmentId, log: seq<Event>, s: Inner, n: Node, s': Inner, r: NodeRef)
    requires Tells(id, start, segment, log, s) && Open(id, s, segment) && AppendedTo(id, s, s', segment, n, r)
    ensures Tells(id, start, segment, log + [Mine(n)], s')
  {
    var mine := [AppendNode(segment, n)];
    AfterMore(id, start, Steps(segment, log), mine);
    assert Steps(segment, log + [Mine(n)]) == Steps(segment, log) + mine;
    assert AfterSteps(id, s, mine) == AfterSteps(id, AfterStep(id, s, mine[0]), mine[1..]) == AfterStep(id, s, mine[0]);
  }

  /** Without other threads the segment stays open, and the new nodes are those of this lowering. */
  lemma {:induction false} AloneAppends(id: nat, start: Inner, segment: SegmentId, log: seq<Event>, s: Inner)
    requires AllMine(log) && Tells(id, start, segment, log, s) && Open(id, start, segment)
    ensures Open(id, s, segment) && s.segments[segment.index].nodes == start.segments[segment.index].nodes + Own(log)
    decreases |log|
  {
    if log != [] {
      var earlier, n := log[..|log| - 1], log[|log| - 1].node;
      var t := AfterSteps(id, start, Steps(segment, earlier));
      AloneAppends(id, start, segment, earlier, t);
      assert log == earlier + [Mine(n)];
      TellsMine(id, start, segment, earlier, t, n, WithNode(t, segment.index, n), NewRef(id, t, segment.index));
      OwnMine(earlier, n);
    }
  }

  lemma {:induction false} AloneFails(id: nat, start: Inner, segment: SegmentId, log: seq<Event>, s: Inner)
    requires AllMine(log) && Tells(id, start, segment, log, s) && !Open(id, start, segment)
    ensures s == start
    decreases |log|
  {
    if log != [] {
      var earlier, last := log[..|log| - 1], [AppendNode(segment, log[|log| - 1].node)];
      AloneFails(id, start, segment, earlier, AfterSteps(id, start, Steps(segment, earlier)));
      AfterMore(id, start, Steps(segment, earlier), last);
      assert Steps(segment, log) == Steps(segment, earlier) + last;
      assert AfterSteps(id, start, last) == AfterSteps(id, AfterStep(id, start, last[0]), last[1..]) == start;
    }
  }

  /** The other threads: what they do at each of their turns, given the store they meet. */
  type Rivals = (nat, Inner) -> seq<Step>

  ghost predicate RivalsOk(id: nat, rivals: Rivals) {
    forall turn, s | Invariant(id, s) :: FitSteps(id, s, rivals(turn, s))
  }

  ghost predicate Quiet(rivals: Rivals) {
    forall turn, s :: rivals(turn, s) == []
  }

  // ---- one lowered expression

  /** Everything the loop keeps. */
  ghost predicate Underway(h: Hir, id: nat, s: Inner, segment: SegmentId, own: seq<Node>, work: seq<Work>,
      lowered: map<nat, NodeRef>)
    requires HirOk(h)
  {
    && StackOk(h, work, lowered.Keys) && LoweredOk(h, id, s, segment, lowered) && AppendedOnce(h, own, lowered)
    && (lowered != map[] ==> Open(id, s, segment))
  }

  /** The memo table with one more expression, whose parts are in it and whose node means what it should. */
  lemma LoweredOneMore(h: Hir, id: nat, s: Inner, s': Inner, segment: SegmentId, lowered: map<nat, NodeRef>,
      e: nat, r: NodeRef)
    requires HirOk(h) && LoweredOk(h, id, s, segment, lowered) && Grows(s, s')
    requires e < |h.expressions| && IsMorphism(h, e) && Reached(h, e) && (forall x :: x in Parts(h, e) ==> x in lowered)
    requires r.Segment() == segment && Denotes(id, s', r, Meaning(h, e))
    ensures LoweredOk(h, id, s', segment, lowered[e := r])
  {
    MeansOneMore(h, id, s, s', segment, lowered, e, r);
    forall y: nat, x: nat | y in lowered[e := r] && y < |h.expressions| && x in Parts(h, y)
      ensures x in lowered[e := r]
    {
      if y != e {
        assert y in lowered;
      }
    }
  }

  lemma MeansOneMore(h: Hir, id: nat, s: Inner, s': Inner, segment: SegmentId, lowered: map<nat, NodeRef>, e: nat,
      r: NodeRef)
    requires HirOk(h) && MeansOk(h, id, s, segment, lowered) && Grows(s, s')
    requires e < |h.expressions| && IsMorphism(h, e) && r.Segment() == segment && Denotes(id, s', r, Meaning(h, e))
    ensures MeansOk(h, id, s', segment, lowered[e := r])
  {
    var lowered' := lowered[e := r];
    forall x: nat | x in lowered' && x < |h.expressions| && IsMorphism(h, x)
      ensures lowered'[x].Segment() == segment && Denotes(id, s', lowered'[x], Meaning(h, x))
    {
      if x != e {
        assert lowered'[x] == lowered[x];
        DenotesStays(id, s, s', lowered[x], Meaning(h, x));
      }
    }
  }

  lemma AppendedOneMore(h: Hir, own: seq<Node>, lowered: map<nat, NodeRef>, e: nat, r: NodeRef, n: Node)
    requires HirOk(h) && AppendedOnce(h, own, lowered) && e !in lowered
    requires e < |h.expressions| && !IsAlias(h, e) && n.provenance == e
    ensures AppendedOnce(h, own + [n], lowered[e := r])
  {
    var own', lowered' := own + [n], lowered[e := r];
    assert own'[|own|] == n;
    forall x: nat | x in lowered' && x < |h.expressions| && !IsAlias(h, x)
      ensures exists k :: 0 <= k < |own'| && own'[k].provenance == x
    {
      if x == e {
        assert own'[|own|].provenance == e;
      } else {
        var k :| 0 <= k < |own| && own[k].provenance == x;
        assert own'[k].provenance == x;
      }
    }
  }

  lemma AliasOneMore(h: Hir, own: seq<Node>, lowered: map<nat, NodeRef>, e: nat, r: NodeRef)
    requires HirOk(h) && AppendedOnce(h, own, lowered) && e < |h.expressions| && IsAlias(h, e)
    ensures AppendedOnce(h, own, lowered[e := r])
  {
  }

  datatype LoweringError = NonMorphism(expression: nat) | ArenaFailure(error: StoreError)

  /** Nothing but one segment's nodes was added. */
  lemma OpenAfterAppend(id: nat, s: Inner, s': Inner, segment: SegmentId, n: Node, r: NodeRef)
    requires Open(id, s, segment) && AppendedTo(id, s, s', segment, n, r)
    ensures Open(id, s', segment) && r.Segment() == segment && NodeFrom(id, s', r) == Ok(n)
  {
  }

  /** The expression is lowered to a node that means what the recursion says. */
  ghost predicate LoweredTo(h: Hir, id: nat, s: Inner, segment: SegmentId, e: nat, r: NodeRef)
    requires HirOk(h) && e < |h.expressions|
  {
    IsMorphism(h, e) && Open(id, s, segment) && r.Segment() == segment && Denotes(id, s, r, Meaning(h, e))
  }

  /** This lowering appended one more node, for the expression. */
  ghost predicate OneMoreOwn(log: seq<Event>, log': seq<Event>, e: nat) {
    |Own(log')| == |Own(log)| + 1 && Own(log')[..|Own(log)|] == Own(log) && Own(log')[|Own(log)|].provenance == e
  }

  /** What a turn of the lowering and of the other threads leaves behind: one more own node if it
      succeeds, and otherwise a closed segment. */
  ghost predicate TurnTaken(h: Hir, id: nat, rivals: Rivals, start: Inner, segment: SegmentId, log: seq<Event>,
      log': seq<Event>, s: Inner, e: nat, r: Result<NodeRef, LoweringError>)
    requires HirOk(h) && e < |h.expressions|
  {
    && Tells(id, start, segment, log', s) && (Quiet(rivals) && AllMine(log) ==> AllMine(log'))
    && if r.Ok? then LoweredTo(h, id, s, segment, e, r.value) && OneMoreOwn(log, log', e)
       else r.error.ArenaFailure? && !Open(id, s, segment)
  }

  /** The events of a turn: others before the check, others between check and append, the append. */
  function TurnLog(log: seq<Event>, first: seq<Step>, second: seq<Step>): seq<Event> {
    log + ByOthers(first) + ByOthers(second)
  }

  lemma TurnOfOthers(id: nat, rivals: Rivals, start: Inner, segment: SegmentId, log: seq<Event>, s: Inner,
      turn: nat, first: seq<Step>, second: seq<Step>)
    requires Tells(id, start, segment, log, s)
    requires first == rivals(2 * turn, s) && second == rivals(2 * turn + 1, AfterSteps(id, s, first))
    ensures Tells(id, start, segment, TurnLog(log, first, second), AfterSteps(id, AfterSteps(id, s, first), second))
    ensures Own(TurnLog(log, first, second)) == Own(log)
    ensures Quiet(rivals) && AllMine(log) ==> AllMine(TurnLog(log, first, second))
  {
    TellsOthers(id, start, segment, log, s, first);
    TellsOthers(id, start, segment, log + ByOthers(first), AfterSteps(id, s, first), second);
    OwnByOthers(log, first);
    OwnByOthers(log + ByOthers(first), second);
  }

  /** A turn that fails at a closed segment. */
  lemma TurnFailed(h: Hir, id: nat, rivals: Rivals, start: Inner, segment: SegmentId, log: seq<Event>,
      between: seq<Event>, s: Inner, e: nat, error: StoreError)
    requires HirOk(h) && e < |h.expressions| && Tells(id, start, segment, between, s) && !Open(id, s, segment)
    requires Quiet(rivals) && AllMine(log) ==> AllMine(between)
    ensures TurnTaken(h, id, rivals, start, segment, log, between, s, e, Err(ArenaFailure(error)))
  {
  }

  /** A turn that appends the node of the expression. */
  lemma TurnAppended(h: Hir, id: nat, rivals: Rivals, start: Inner, segment: SegmentId, log: seq<Event>,
      between: seq<Event>, s: Inner, n: Node, s': Inner, e: nat, r: NodeRef)
    requires HirOk(h) && e < |h.expressions| && IsMorphism(h, e) && n.provenance == e
    requires Tells(id, start, segment, between, s) && Own(between) == Own(log)
    requires Quiet(rivals) && AllMine(log) ==> AllMine(between)
    requires Open(id, s, segment) && AppendedTo(id, s, s', segment, n, r) && Denotes(id, s', r, Meaning(h, e))
    ensures TurnTaken(h, id, rivals, start, segment, log, between + [Mine(n)], s', e, Ok(r))
  {
    OpenAfterAppend(id, s, s', segment, n, r);
    TellsMine(id, start, segment, between, s, n, s', r);
    OwnMine(between, n);
  }

  /** A call becomes an unresolved leaf. */
  method LowerCall(h: Hir, store: ArenaStore, rivals: Rivals, turn: nat, segment: SegmentId, e: nat,
      ghost start: Inner, ghost log: seq<Event>)
    returns (r: Result<NodeRef, LoweringError>, ghost log': seq<Event>)
    requires HirOk(h) && store.Valid() && e < |h.expressions| && h.expressions[e].CallExpression?
    requires RivalsOk(store.id, rivals) && Tells(store.id, start, segment, log, store.inner)
    modifies store
    ensures store.Valid() && Grows(old(store.inner), store.inner)
    ensures TurnTaken(h, store.id, rivals, start, segment, log, log', store.inner, e, r)
  {
    ghost var s := store.inner;
    var others := rivals(2 * turn, store.inner);
    store.Interfere(others);
    TellsOthers(store.id, start, segment, log, s, others);
    OwnByOthers(log, others);
    ghost var s1 := store.inner;
    log' := log + ByOthers(others);
    var made := store.SourceCallNode(segment, e);
    GrowsTransitive(s, s1, store.inner);
    if made.Err? {
      TurnFailed(h, store.id, rivals, start, segment, log, log', s1, e, made.error);
      return Err(ArenaFailure(made.error)), log';
    }
    ghost var n := Node(SourceCall, None, None, e, 0, e);
    OpenAfterAppend(store.id, s1, store.inner, segment, n, made.value);
    TurnAppended(h, store.id, rivals, start, segment, log, log', s1, n, store.inner, e, made.value);
    return Ok(made.value), log' + [Mine(n)];
  }

  /** No channel is known before source calls are resolved. */
  lemma MaskIsZero(id: nat, s: Inner, r: NodeRef, t: SourceTree)
    requires Denotes(id, s, r, t)
    ensures MaskOf(id, s, r) == 0
  {
  }

  /** The composition of two lowered parts passes the checks. */
  lemma ComposeIsChecked(id: nat, s: Inner, segment: SegmentId, kind: Composition, left: NodeRef, right: NodeRef)
    requires left.Segment() == segment == right.Segment() && Exists(id, s, left) && Exists(id, s, right)
    ensures ComposeChecked(id, s, segment, ArenaKind(kind), left, right)
  {
  }

  lemma ComposedMeans(h: Hir, id: nat, s: Inner, s': Inner, segment: SegmentId, e: nat, left: NodeRef,
      right: NodeRef, r: NodeRef)
    requires HirOk(h) && e < |h.expressions| && h.expressions[e].Composed?
    requires !AppliesDictionary(h, e) && IsMorphism(h, e)
    requires Denotes(id, s, left, Meaning(h, h.expressions[e].left)) && Grows(s, s')
    requires Denotes(id, s, right, Meaning(h, h.expressions[e].right))
    requires NodeFrom(id, s', r) == Ok(Node(ArenaKind(h.expressions[e].kind), Some(left), Some(right), 0, 0, e))
    ensures Denotes(id, s', r, Meaning(h, e))
  {
    var x := h.expressions[e];
    var first, second := Meaning(h, x.left), Meaning(h, x.right);
    assert Meaning(h, e) == ComposeTree(x.kind, first, second, e);
    DenotesStays(id, s, s', left, first);
    DenotesStays(id, s, s', right, second);
    ComposeDenotes(id, s', r, x.kind, left, right, first, second, e);
  }

  lemma ComposeDenotes(id: nat, s: Inner, r: NodeRef, kind: Composition, left: NodeRef, right: NodeRef,
      first: SourceTree, second: SourceTree, e: nat)
    requires Denotes(id, s, left, first) && Denotes(id, s, right, second)
    requires NodeFrom(id, s, r) == Ok(Node(ArenaKind(kind), Some(left), Some(right), 0, 0, e))
    ensures Denotes(id, s, r, ComposeTree(kind, first, second, e))
  {
  }

  /** A composition of two lowered parts. */
  method LowerCompose(h: Hir, store: ArenaStore, rivals: Rivals, turn: nat, segment: SegmentId, e: nat,
      left: NodeRef, right: NodeRef, ghost start: Inner, ghost log: seq<Event>)
    returns (r: Result<NodeRef, LoweringError>, ghost log': seq<Event>)
    requires HirOk(h) && store.Valid() && e < |h.expressions| && h.expressions[e].Composed?
    requires !AppliesDictionary(h, e) && IsMorphism(h, e)
    requires left.Segment() == segment == right.Segment()
    requires Denotes(store.id, store.inner, left, Meaning(h, h.expressions[e].left))
    requires Denotes(store.id, store.inner, right, Meaning(h, h.expressions[e].right))
    requires RivalsOk(store.id, rivals) && Tells(store.id, start, segment, log, store.inner)
    modifies store
    ensures store.Valid() && Grows(old(store.inner), store.inner)
    ensures TurnTaken(h, store.id, rivals, start, segment, log, log', store.inner, e, r)
  {
    var kind := ArenaKind(h.expressions[e].kind);
    ghost var s := store.inner;
    var first := rivals(2 * turn, store.inner);
    store.Interfere(first);
    ghost var s1 := store.inner;
    var second := rivals(2 * turn + 1, store.inner);
    TurnOfOthers(store.id, rivals, start, segment, log, s, turn, first, second);
    PartStays(h, store.id, s, s1, left, h.expressions[e].left);
    PartStays(h, store.id, s, s1, right, h.expressions[e].right);
    ComposeIsChecked(store.id, s1, segment, h.expressions[e].kind, left, right);
    log' := TurnLog(log, first, second);
    var made := store.Compose(segment, kind, left, right, e, second);
    GrowsTransitive(s, s1, store.inner);
    ghost var s2, n := AfterSteps(store.id, s1, second), Node(kind, Some(left), Some(right), 0, 0, e);
    if made.Err? {
      TurnFailed(h, store.id, rivals, start, segment, log, log', s2, e, made.error);
      return Err(ArenaFailure(made.error)), log';
    }
    OpenAfterAppend(store.id, s2, store.inner, segment, n, made.value);
    ComposedMeans(h, store.id, s, store.inner, segment, e, left, right, made.value);
    TurnAppended(h, store.id, rivals, start, segment, log, log', s2, n, store.inner, e, made.value);
    return Ok(made.value), log' + [Mine(n)];
  }

  /** A lowered part stays what it is while others run, and shows no channel. */
  lemma PartStays(h: Hir, id: nat, s: Inner, s': Inner, r: NodeRef, x: nat)
    requires HirOk(h) && x < |h.expressions| && IsMorphism(h, x) && Denotes(id, s, r, Meaning(h, x)) && Grows(s, s')
    ensures Exists(id, s', r) && Denotes(id, s', r, Meaning(h, x)) && MaskOf(id, s', r) == 0
  {
    DenotesStays(id, s, s', r, Meaning(h, x));
    MaskIsZero(id, s', r, Meaning(h, x));
  }

  lemma DeferredIsChecked(id: nat, s: Inner, segment: SegmentId, n: Node, left: NodeRef)
    requires n.kind == DeferredApply && n.left == Some(left) && n.right.None?
    requires left.Segment() == segment && Exists(id, s, left)
    ensures RawChecked(id, s, segment, n)
  {
    assert n.Children() == [left];
  }

  lemma DeferredMeans(h: Hir, id: nat, s: Inner, s': Inner, segment: SegmentId, e: nat, left: NodeRef, r: NodeRef)
    requires HirOk(h) && e < |h.expressions| && AppliesDictionary(h, e) && !IsAlias(h, e) && IsMorphism(h, e)
    requires Denotes(id, s, left, Meaning(h, h.expressions[e].left)) && Grows(s, s')
    requires NodeFrom(id, s', r) == Ok(Node(DeferredApply, Some(left), None, h.expressions[e].right, 0, e))
    ensures Denotes(id, s', r, Meaning(h, e))
  {
    DenotesStays(id, s, s', left, Meaning(h, h.expressions[e].left));
  }

  /** A dictionary applied to a lowered part; the dictionary stays in the source. */
  method LowerDeferred(h: Hir, store: ArenaStore, rivals: Rivals, turn: nat, segment: SegmentId, e: nat,
      left: NodeRef, ghost start: Inner, ghost log: seq<Event>)
    returns (r: Result<NodeRef, LoweringError>, ghost log': seq<Event>)
    requires HirOk(h) && store.Valid() && e < |h.expressions| && AppliesDictionary(h, e) && !IsAlias(h, e)
    requires IsMorphism(h, e)
    requires left.Segment() == segment
    requires Denotes(store.id, store.inner, left, Meaning(h, h.expressions[e].left))
    requires RivalsOk(store.id, rivals) && Tells(store.id, start, segment, log, store.inner)
    modifies store
    ensures store.Valid() && Grows(old(store.inner), store.inner)
    ensures TurnTaken(h, store.id, rivals, start, segment, log, log', store.inner, e, r)
  {
    ghost var s := store.inner;
    var first := rivals(2 * turn, store.inner);
    store.Interfere(first);
    ghost var s1 := store.inner;
    var second := rivals(2 * turn + 1, store.inner);
    TurnOfOthers(store.id, rivals, start, segment, log, s, turn, first, second);
    PartStays(h, store.id, s, s1, left, h.expressions[e].left);
    var n := Node(DeferredApply, Some(left), None, h.expressions[e].right, MaskOf(store.id, store.inner, left), e);
    DeferredIsChecked(store.id, s1, segment, n, left);
    log' := TurnLog(log, first, second);
    var made := store.AppendRaw(segment, n, second);
    GrowsTransitive(s, s1, store.inner);
    ghost var s2 := AfterSteps(store.id, s1, second);
    if made.Err? {
      TurnFailed(h, store.id, rivals, start, segment, log, log', s2, e, made.error);
      return Err(ArenaFailure(made.error)), log';
    }
    OpenAfterAppend(store.id, s2, store.inner, segment, n, made.value);
    DeferredMeans(h, store.id, s, store.inner, segment, e, left, made.value);
    TurnAppended(h, store.id, rivals, start, segment, log, log', s2, n, store.inner, e, made.value);
    return Ok(made.value), log' + [Mine(n)];
  }

  /** What the top of the stack waits for is in the memo table. */
  lemma PartsLowered(h: Hir, work: seq<Work>, lowered: set<nat>)
    requires HirOk(h) && work != [] && StackOk(h, work, lowered) && !work[|work| - 1].Enter?
    ensures forall x :: x in Parts(h, work[|work| - 1].expression) ==> x in lowered
    ensures work[|work| - 1].expression !in lowered && WorkOk(h, work[|work| - 1])
    ensures Reached(h, work[|work| - 1].expression)
  {
    forall x | x in Parts(h, work[|work| - 1].expression)
      ensures x in lowered
    {
      assert x in lowered || Awaited(work, |work| - 1 + 1, x);
    }
  }

  /** The work on an expression that has just been lowered is done. */
  lemma FinishStep(h: Hir, id: nat, s: Inner, s': Inner, segment: SegmentId, log: seq<Event>, log': seq<Event>,
      work: seq<Work>, lowered: map<nat, NodeRef>, r: NodeRef)
    requires HirOk(h) && work != [] && Underway(h, id, s, segment, Own(log), work, lowered) && Grows(s, s')
    requires work[|work| - 1].expression < |h.expressions| && work[|work| - 1].expression !in lowered
    requires !IsAlias(h, work[|work| - 1].expression)
    requires LoweredTo(h, id, s', segment, work[|work| - 1].expression, r)
    requires OneMoreOwn(log, log', work[|work| - 1].expression)
    requires forall x :: x in Parts(h, work[|work| - 1].expression) ==> x in lowered
    ensures Underway(h, id, s', segment, Own(log'), work[..|work| - 1], lowered[work[|work| - 1].expression := r])
  {
    var e := work[|work| - 1].expression;
    DropTop(h, work, lowered.Keys, lowered[e := r].Keys);
    assert Reached(h, work[|work| - 1].expression);
    LoweredOneMore(h, id, s, s', segment, lowered, e, r);
    OwnOneMore(h, log, log', lowered, e, r);
  }

  lemma OwnOneMore(h: Hir, log: seq<Event>, log': seq<Event>, lowered: map<nat, NodeRef>, e: nat, r: NodeRef)
    requires HirOk(h) && AppendedOnce(h, Own(log), lowered) && e !in lowered
    requires e < |h.expressions| && !IsAlias(h, e) && OneMoreOwn(log, log', e)
    ensures AppendedOnce(h, Own(log'), lowered[e := r])
  {
    assert Own(log') == Own(log) + [Own(log')[|Own(log)|]];
    AppendedOneMore(h, Own(log), lowered, e, r, Own(log')[|Own(log)|]);
  }

  lemma AliasStep(h: Hir, id: nat, s: Inner, segment: SegmentId, own: seq<Node>, work: seq<Work>,
      lowered: map<nat, NodeRef>)
    requires HirOk(h) && work != [] && Underway(h, id, s, segment, own, work, lowered) && work[|work| - 1].Alias?
    ensures work[|work| - 1].target in lowered
    ensures Underway(h, id, s, segment, own, work[..|work| - 1],
      lowered[work[|work| - 1].expression := lowered[work[|work| - 1].target]])
  {
    var w := work[|work| - 1];
    PartsLowered(h, work, lowered.Keys);
    assert Parts(h, w.expression) == [w.target];
    assert w.target in Parts(h, w.expression);
    var r := lowered[w.target];
    DropTop(h, work, lowered.Keys, lowered[w.expression := r].Keys);
    GrowsReflexive(s);
    assert IsMorphism(h, w.target) && w.target < |h.expressions|;
    LoweredOneMore(h, id, s, s, segment, lowered, w.expression, r);
    AliasOneMore(h, own, lowered, w.expression, r);
  }

  /** What a step of the loop leaves: the loop's invariant, or a closed segment. */
  ghost predicate StepTaken(h: Hir, id: nat, rivals: Rivals, start: Inner, segment: SegmentId, log: seq<Event>,
      log': seq<Event>, s: Inner, work: seq<Work>, lowered: map<nat, NodeRef>, failure: Option<LoweringError>)
    requires HirOk(h)
  {
    && Tells(id, start, segment, log', s) && (Quiet(rivals) && AllMine(log) ==> AllMine(log'))
    && if failure.Some? then failure.value.ArenaFailure? && !Open(id, s, segment)
       else Underway(h, id, s, segment, Own(log'), work, lowered)
  }

  /** Take one item off the stack. Only a closed segment makes it fail. */
  method Advance(h: Hir, store: ArenaStore, rivals: Rivals, turn: nat, segment: SegmentId, work: seq<Work>,
      lowered: map<nat, NodeRef>, ghost start: Inner, ghost log: seq<Event>)
    returns (failure: Option<LoweringError>, work': seq<Work>, lowered': map<nat, NodeRef>, ghost log': seq<Event>)
    requires HirOk(h) && store.Valid() && work != []
    requires RivalsOk(store.id, rivals) && Tells(store.id, start, segment, log, store.inner)
    requires Underway(h, store.id, store.inner, segment, Own(log), work, lowered)
    modifies store
    ensures store.Valid() && Grows(old(store.inner), store.inner)
    ensures StepTaken(h, store.id, rivals, start, segment, log, log', store.inner, work', lowered', failure)
    ensures failure.None? ==> StackWeight(h, work') < StackWeight(h, work)
  {
    var top := work[|work| - 1];
    var rest := work[..|work| - 1];
    var e := top.expression;
    assert work == rest + [top];
    WeightPushed(h, rest, top);
    GrowsReflexive(store.inner);
    assert WorkOk(h, top) && Reached(h, e);
    if top.Enter? && e in lowered {
      SkipLowered(h, work, lowered.Keys);
      return None, rest, lowered, log;
    }
    if top.Enter? && h.expressions[e].Composed? {
      ExpandTop(h, rest, e, lowered.Keys);
      ExpandIsLighter(h, rest, e);
      return None, rest + [Finishing(h, e)] + Entering(h, e), lowered, log;
    }
    if top.Alias? {
      AliasStep(h, store.id, store.inner, segment, Own(log), work, lowered);
      return None, rest, lowered[e := lowered[top.target]], log;
    }
    var made;
    made, log' := LowerTop(h, store, rivals, turn, segment, work, lowered, start, log);
    if made.Err? {
      return Some(made.error), work, lowered, log';
    }
    return None, rest, lowered[e := made.value], log';
  }

  /** A call, or a composition whose parts are lowered. */
  method LowerTop(h: Hir, store: ArenaStore, rivals: Rivals, turn: nat, segment: SegmentId, work: seq<Work>,
      lowered: map<nat, NodeRef>, ghost start: Inner, ghost log: seq<Event>)
    returns (r: Result<NodeRef, LoweringError>, ghost log': seq<Event>)
    requires HirOk(h) && store.Valid() && work != []
    requires RivalsOk(store.id, rivals) && Tells(store.id, start, segment, log, store.inner)
    requires Underway(h, store.id, store.inner, segment, Own(log), work, lowered)
    requires var top := work[|work| - 1];
      && !top.Alias? && top.expression !in lowered && top.expression < |h.expressions|
      && (top.Enter? ==> !h.expressions[top.expression].Composed?)
    modifies store
    ensures store.Valid() && Grows(old(store.inner), store.inner)
    ensures TurnTaken(h, store.id, rivals, start, segment, log, log', store.inner, work[|work| - 1].expression, r)
    ensures r.Ok? ==> Underway(h, store.id, store.inner, segment, Own(log'), work[..|work| - 1],
      lowered[work[|work| - 1].expression := r.value])
  {
    var top := work[|work| - 1];
    ghost var s := store.inner;
    assert WorkOk(h, top);
    match top {
      case Enter(e) =>
        assert h.expressions[e].CallExpression?;
        r, log' := LowerCall(h, store, rivals, turn, segment, e, start, log);
      case ComposeLater(e, kind, left, right) =>
        PartsLowered(h, work, lowered.Keys);
        assert left in Parts(h, e) && right in Parts(h, e);
        r, log' := LowerCompose(h, store, rivals, turn, segment, e, lowered[left], lowered[right], start, log);
      case DeferredApplyLater(e, left, dictionary) =>
        PartsLowered(h, work, lowered.Keys);
        assert left in Parts(h, e);
        r, log' := LowerDeferred(h, store, rivals, turn, segment, e, lowered[left], start, log);
    }
    if r.Ok? {
      FinishStep(h, store.id, s, store.inner, segment, log, log', work, lowered, r.value);
    }
  }

  /** Without other threads: an open segment stays open and gets the nodes of this lowering, and
      nothing changes otherwise. */
  ghost predicate Alone(id: nat, start: Inner, segment: SegmentId, log: seq<Event>, s: Inner) {
    if Open(id, start, segment)
    then Open(id, s, segment) && s.segments[segment.index].nodes == start.segments[segment.index].nodes + Own(log)
    else s == start
  }

  lemma AloneIs(id: nat, start: Inner, segment: SegmentId, log: seq<Event>, s: Inner)
    requires Tells(id, start, segment, log, s)
    ensures AllMine(log) ==> Alone(id, start, segment, log, s)
  {
    if AllMine(log) && Open(id, start, segment) {
      AloneAppends(id, start, segment, log, s);
    } else if AllMine(log) {
      AloneFails(id, start, segment, log, s);
    }
  }

  /** The loop over the work stack of a valid graph. */
  method LowerReached(h: Hir, store: ArenaStore, segment: SegmentId, rivals: Rivals)
    returns (r: Result<NodeRef, LoweringError>, ghost memo: map<nat, NodeRef>, ghost log: seq<Event>)
    requires HirOk(h) && IsMorphism(h, h.root) && store.Valid() && RivalsOk(store.id, rivals)
    modifies store
    ensures store.Valid() && Grows(old(store.inner), store.inner)
    ensures Tells(store.id, old(store.inner), segment, log, store.inner) && (Quiet(rivals) ==> AllMine(log))
    ensures r.Err? ==> r.error.ArenaFailure? && !Open(store.id, store.inner, segment)
    ensures r.Ok? ==> Underway(h, store.id, store.inner, segment, Own(log), [], memo)
    ensures r.Ok? ==> h.root in memo && r.value == memo[h.root]
  {
    GrowsReflexive(store.inner);
    memo, log := map[], [];
    var lowered: map<nat, NodeRef> := map[];
    var work := [Enter(h.root)];
    ghost var start := store.inner;
    RootReached(h);
    assert work[0].expression == h.root;
    var turn := 0;
    while work != []
      invariant store.Valid() && Grows(start, store.inner)
      invariant Tells(store.id, start, segment, log, store.inner) && (Quiet(rivals) ==> AllMine(log))
      invariant Underway(h, store.id, store.inner, segment, Own(log), work, lowered)
      decreases StackWeight(h, work)
    {
      var failure;
      ghost var s := store.inner;
      failure, work, lowered, log := Advance(h, store, rivals, turn, segment, work, lowered, start, log);
      turn := turn + 1;
      GrowsTransitive(start, s, store.inner);
      if failure.Some? {
        return Err(failure.value), memo, log;
      }
    }
    return Ok(lowered[h.root]), lowered, log;
  }

  /** The whole lowering, with any steps of other threads before each check and each append. It
      succeeds exactly when the graph is a Morphism and the segment is still open in the end; the root
      then means what the recursive lowering says. The run of the store is one of the others' steps
      and of one append for every reached expression but the aliases. */
  method LowerSequenceHir(h: Hir, store: ArenaStore, segment: SegmentId, rivals: Rivals)
    returns (r: Result<NodeRef, LoweringError>, ghost memo: map<nat, NodeRef>, ghost log: seq<Event>)
    requires HirOk(h) && store.Valid() && RivalsOk(store.id, rivals)
    modifies store
    ensures store.Valid() && Grows(old(store.inner), store.inner)
    ensures Tells(store.id, old(store.inner), segment, log, store.inner)
    ensures r.Ok? <==> IsMorphism(h, h.root) && Open(store.id, store.inner, segment)
    ensures r.Ok? ==> IsMorphism(h, h.root) && Denotes(store.id, store.inner, r.value, Meaning(h, h.root))
    ensures r.Ok? ==> forall e: nat :: e in memo <==> Reached(h, e)
    ensures r.Ok? ==> LoweredOk(h, store.id, store.inner, segment, memo) && AppendedOnce(h, Own(log), memo)
    ensures r.Err? && r.error.NonMorphism? ==> store.inner == old(store.inner) && r.error.expression < |h.expressions|
    ensures r.Err? && r.error.NonMorphism? ==> Reached(h, r.error.expression) && !IsMorphismKind(h, r.error.expression)
    ensures Quiet(rivals) ==> Alone(store.id, old(store.inner), segment, log, store.inner)
  {
    GrowsReflexive(store.inner);
    var validated := ValidateMorphismGraph(h);
    if validated.Err? {
      AloneIs(store.id, store.inner, segment, [], store.inner);
      return Err(NonMorphism(validated.error)), map[], [];
    }
    ghost var start := store.inner;
    r, memo, log := LowerReached(h, store, segment, rivals);
    AloneIs(store.id, start, segment, log, store.inner);
    if r.Ok? {
      MemoIsComplete(h, store.id, store.inner, segment, memo);
    }
  }

  lemma MemoIsComplete(h: Hir, id: nat, s: Inner, segment: SegmentId, lowered: map<nat, NodeRef>)
    requires HirOk(h) && StackOk(h, [], lowered.Keys) && LoweredOk(h, id, s, segment, lowered)
    ensures h.root in lowered
    ensures forall e: nat :: e in lowered <==> Reached(h, e)
  {
    forall e: nat | Reached(h, e)
      ensures e in lowered
    {
      var n: nat :| ReachedIn(h, e, n);
      ReachedInClosed(h, lowered.Keys, e, n);
    }
  }
}
