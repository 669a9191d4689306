/** Dependency roles of source nodes: a worklist over child edges and name resolutions. */
module Roles {
  import opened Common

  datatype HirKind = Call | Dictionary | Conditional | Loop | OtherKind

  /** A node with its slice of the flat edge table. */
  datatype HirNode = HirNode(kind: HirKind, edgeStart: nat, edgeCount: nat)

  datatype Role = Structural | Relocatable

  datatype Availability = Compile | Link | Device

  /** What is known of a node; a name may resolve to any node, also to one that leads back. */
  datatype Fact = Fact(availability: Availability, roles: set<Role>, resolved: Option<nat>)

  datatype Pending = Pending(node: nat, role: Role)

  predicate EdgesOk(nodes: seq<HirNode>, edges: seq<nat>) {
    forall i :: 0 <= i < |nodes| ==> nodes[i].edgeStart + nodes[i].edgeCount <= |edges|
  }

  function NodeEdges(n: HirNode, edges: seq<nat>): seq<nat>
    requires n.edgeStart + n.edgeCount <= |edges|
  {
    edges[n.edgeStart..n.edgeStart + n.edgeCount]
  }

  function WithRole(ids: seq<nat>, role: Role): (ps: seq<Pending>)
    ensures |ps| == |ids| && forall k :: 0 <= k < |ids| ==> ps[k] == Pending(ids[k], role)
  {
    seq(|ids|, k requires 0 <= k < |ids| => Pending(ids[k], role))
  }

  /** The roles a node imposes on its children: a called function and the keys of a dictionary are structural, as is
      what controls a branch or a loop; arguments and dictionary values are relocatable. */
  function SeedsOf(kind: HirKind, children: seq<nat>): seq<Pending> {
    match kind
    case Call => if children == [] then [] else [Pending(children[0], Structural)] + WithRole(children[1..],
      Relocatable)
    case Dictionary => WithRole(children[..|children| / 2], Structural) + WithRole(children[|children| / 2..],
      Relocatable)
    case Conditional => if children == [] then [] else [Pending(children[0], Structural)]
    case Loop => if children == [] then [] else [Pending(children[0], Structural)]
    case OtherKind => []
  }

  /** Node i imposes the role. */
  predicate ImposedBy(nodes: seq<HirNode>, edges: seq<nat>, i: nat, p: Pending)
    requires EdgesOk(nodes, edges)
  {
    i < |nodes| && p in SeedsOf(nodes[i].kind, NodeEdges(nodes[i], edges))
  }

  /** One of the first n nodes imposes the role. */
  ghost predicate SeedOfFirst(nodes: seq<HirNode>, edges: seq<nat>, n: nat, p: Pending)
    requires EdgesOk(nodes, edges) && n <= |nodes|
  {
    exists i: nat :: i < n && ImposedBy(nodes, edges, i, p)
  }

  ghost predicate IsSeed(nodes: seq<HirNode>, edges: seq<nat>, p: Pending)
    requires EdgesOk(nodes, edges)
  {
    SeedOfFirst(nodes, edges, |nodes|, p)
  }

  /** A role of x passes to y: a child, or the node a name resolves to. */
  predicate Passes(nodes: seq<HirNode>, edges: seq<nat>, facts: seq<Fact>, x: nat, y: nat)
    requires EdgesOk(nodes, edges)
  {
    && x < |facts|
    && ((x < |nodes| && y in NodeEdges(nodes[x], edges)) || facts[x].resolved == Some(y))
  }

  /** Within n steps from a seed of the role, through nodes that have facts. */
  ghost predicate ReachedIn(nodes: seq<HirNode>, edges: seq<nat>, facts: seq<Fact>, role: Role, y: nat, n: nat)
    requires EdgesOk(nodes, edges)
    decreases n
  {
    && y < |facts|
    && (IsSeed(nodes, edges, Pending(y, role)) ||
        (n > 0 && exists x: nat :: ReachedIn(nodes, edges, facts, role, x, n - 1) && Passes(nodes, edges, facts, x, y)))
  }

  ghost predicate Reached(nodes: seq<HirNode>, edges: seq<nat>, facts: seq<Fact>, role: Role, y: nat)
    requires EdgesOk(nodes, edges)
  {
    exists n: nat :: ReachedIn(nodes, edges, facts, role, y, n)
  }

  // ---- the same by kind and position

  /** `y` is the `k`th child of `i`. */
  predicate ChildAt(nodes: seq<HirNode>, edges: seq<nat>, i: nat, k: nat, y: nat)
    requires EdgesOk(nodes, edges)
  {
    i < |nodes| && k < nodes[i].edgeCount && edges[nodes[i].edgeStart + k] == y
  }

  /** Some node has `y` as its child at a position that gives it this role. */
  ghost predicate Imposed(nodes: seq<HirNode>, edges: seq<nat>, role: Role, y: nat)
    requires EdgesOk(nodes, edges)
  {
    exists i: nat, k: nat ::
      ChildAt(nodes, edges, i, k, y) && ImposedAt(nodes[i].kind, nodes[i].edgeCount, k, role)
  }

  /** What a child in position `k` of `count` is used for: what is called, what controls a branch or a loop, and the
      keys of a dictionary, its first half, shape the program; arguments and dictionary values do not. */
  predicate ImposedAt(kind: HirKind, count: nat, k: nat, role: Role) {
    if role == Structural then
      (k == 0 && (kind == Call || kind == Conditional || kind == Loop)) || (kind == Dictionary && k < count / 2)
    else (k > 0 && kind == Call) || (kind == Dictionary && k >= count / 2)
  }

  /** A child edge or a resolution leads from x to y. */
  ghost predicate Leads(nodes: seq<HirNode>, edges: seq<nat>, facts: seq<Fact>, x: nat, y: nat)
    requires EdgesOk(nodes, edges)
  {
    x < |facts| && y < |facts| && (facts[x].resolved == Some(y) || exists k: nat :: ChildAt(nodes, edges, x, k, y))
  }

  /** Every node of the path has facts and leads to the next. */
  ghost predicate IsPath(nodes: seq<HirNode>, edges: seq<nat>, facts: seq<Fact>, path: seq<nat>)
    requires EdgesOk(nodes, edges)
  {
    && path != [] && path[0] < |facts|
    && forall j :: 0 < j < |path| ==> Leads(nodes, edges, facts, path[j - 1], path[j])
  }

  ghost predicate PathTo(nodes: seq<HirNode>, edges: seq<nat>, facts: seq<Fact>, role: Role, y: nat, path: seq<nat>)
    requires EdgesOk(nodes, edges)
  {
    IsPath(nodes, edges, facts, path) && Imposed(nodes, edges, role, path[0]) && path[|path| - 1] == y
  }

  /** Child edges and resolutions lead to `y` from a node that is given the role. */
  ghost predicate Used(nodes: seq<HirNode>, edges: seq<nat>, facts: seq<Fact>, role: Role, y: nat)
    requires EdgesOk(nodes, edges)
  {
    exists path :: PathTo(nodes, edges, facts, role, y, path)
  }

  lemma SeedAt(kind: HirKind, children: seq<nat>, role: Role, y: nat)
    ensures Pending(y, role) in SeedsOf(kind, children)
      <==> exists k: nat :: k < |children| && children[k] == y && ImposedAt(kind, |children|, k, role)
  {
    var half := |children| / 2;
    if k: nat :| k < |children| && children[k] == y && ImposedAt(kind, |children|, k, role) {
      if kind == Dictionary {
        assert WithRole(children[..half], Structural) + WithRole(children[half..], Relocatable) ==
          SeedsOf(kind, children);
        assert SeedsOf(kind, children)[k] == Pending(y, role);
      } else {
        assert SeedsOf(kind, children)[k] == Pending(y, role);
      }
    }
    if Pending(y, role) in SeedsOf(kind, children) {
      var k :| 0 <= k < |SeedsOf(kind, children)| && SeedsOf(kind, children)[k] == Pending(y, role);
      assert children[k] == y && ImposedAt(kind, |children|, k, role);
    }
  }

  lemma ImposedByChild(nodes: seq<HirNode>, edges: seq<nat>, i: nat, role: Role, y: nat)
    requires EdgesOk(nodes, edges) && i < |nodes|
    ensures ImposedBy(nodes, edges, i, Pending(y, role))
      <==> exists k: nat :: ChildAt(nodes, edges, i, k, y) && ImposedAt(nodes[i].kind, nodes[i].edgeCount, k, role)
  {
    var children := NodeEdges(nodes[i], edges);
    SeedAt(nodes[i].kind, children, role, y);
    forall k: nat | k < |children| ensures ChildAt(nodes, edges, i, k, y) <==> children[k] == y {
    }
  }

  lemma SeedIsImposed(nodes: seq<HirNode>, edges: seq<nat>, role: Role, y: nat)
    requires EdgesOk(nodes, edges)
    ensures IsSeed(nodes, edges, Pending(y, role)) <==> Imposed(nodes, edges, role, y)
  {
    forall i: nat | i < |nodes|
      ensures ImposedBy(nodes, edges, i, Pending(y, role))
        <==> exists k: nat :: ChildAt(nodes, edges, i, k, y) && ImposedAt(nodes[i].kind, nodes[i].edgeCount, k, role)
    {
      ImposedByChild(nodes, edges, i, role, y);
    }
  }

  lemma PassesLeads(nodes: seq<HirNode>, edges: seq<nat>, facts: seq<Fact>, x: nat, y: nat)
    requires EdgesOk(nodes, edges) && y < |facts|
    ensures Passes(nodes, edges, facts, x, y) <==> Leads(nodes, edges, facts, x, y)
  {
    if x < |nodes| {
      var children := NodeEdges(nodes[x], edges);
      forall k: nat | k < |children| ensures ChildAt(nodes, edges, x, k, y) <==> children[k] == y {
      }
      assert y in children <==> exists k: nat :: k < |children| && children[k] == y;
    }
  }

  lemma PathGrows(nodes: seq<HirNode>, edges: seq<nat>, facts: seq<Fact>, role: Role, x: nat, y: nat, path: seq<nat>)
    requires EdgesOk(nodes, edges) && PathTo(nodes, edges, facts, role, x, path) && Leads(nodes, edges, facts, x, y)
    ensures PathTo(nodes, edges, facts, role, y, path + [y])
  {
  }

  lemma {:induction false} ReachedIsUsed(nodes: seq<HirNode>, edges: seq<nat>, facts: seq<Fact>, role: Role, y: nat,
      n: nat)
    requires EdgesOk(nodes, edges) && ReachedIn(nodes, edges, facts, role, y, n)
    ensures Used(nodes, edges, facts, role, y)
    decreases n
  {
    if IsSeed(nodes, edges, Pending(y, role)) {
      SeedIsImposed(nodes, edges, role, y);
      assert PathTo(nodes, edges, facts, role, y, [y]);
    } else {
      var x: nat :| ReachedIn(nodes, edges, facts, role, x, n - 1) && Passes(nodes, edges, facts, x, y);
      ReachedIsUsed(nodes, edges, facts, role, x, n - 1);
      PassesLeads(nodes, edges, facts, x, y);
      var path :| PathTo(nodes, edges, facts, role, x, path);
      PathGrows(nodes, edges, facts, role, x, y, path);
    }
  }

  lemma {:induction false} PathIsReached(nodes: seq<HirNode>, edges: seq<nat>, facts: seq<Fact>, role: Role,
      path: seq<nat>)
    requires EdgesOk(nodes, edges) && IsPath(nodes, edges, facts, path) && Imposed(nodes, edges, role, path[0])
    ensures Reached(nodes, edges, facts, role, path[|path| - 1])
    decreases |path|
  {
    if |path| == 1 {
      SeedIsImposed(nodes, edges, role, path[0]);
      ReachedSeed(nodes, edges, facts, role, path[0]);
    } else {
      var init := path[..|path| - 1];
      assert IsPath(nodes, edges, facts, init);
      PathIsReached(nodes, edges, facts, role, init);
      PassesLeads(nodes, edges, facts, init[|init| - 1], path[|path| - 1]);
      ReachedNext(nodes, edges, facts, role, init[|init| - 1], path[|path| - 1]);
    }
  }

  /** The least fixpoint holds what paths lead to. */
  lemma ReachedMeans(nodes: seq<HirNode>, edges: seq<nat>, facts: seq<Fact>, role: Role, y: nat)
    requires EdgesOk(nodes, edges)
    ensures Reached(nodes, edges, facts, role, y) <==> Used(nodes, edges, facts, role, y)
  {
    if n: nat :| ReachedIn(nodes, edges, facts, role, y, n) {
      ReachedIsUsed(nodes, edges, facts, role, y, n);
    }
    if Used(nodes, edges, facts, role, y) {
      var path :| PathTo(nodes, edges, facts, role, y, path);
      PathIsReached(nodes, edges, facts, role, path);
    }
  }

  lemma ReachedSeed(nodes: seq<HirNode>, edges: seq<nat>, facts: seq<Fact>, role: Role, y: nat)
    requires EdgesOk(nodes, edges) && y < |facts| && IsSeed(nodes, edges, Pending(y, role))
    ensures Reached(nodes, edges, facts, role, y)
  {
    assert ReachedIn(nodes, edges, facts, role, y, 0);
  }

  lemma ReachedNext(nodes: seq<HirNode>, edges: seq<nat>, facts: seq<Fact>, role: Role, x: nat, y: nat)
    requires EdgesOk(nodes, edges) && y < |facts| && Reached(nodes, edges, facts, role, x)
    requires Passes(nodes, edges, facts, x, y)
    ensures Reached(nodes, edges, facts, role, y)
  {
    var n: nat :| ReachedIn(nodes, edges, facts, role, x, n);
    assert ReachedIn(nodes, edges, facts, role, y, n + 1);
  }

  // ---- the worklist

  /** The facts differ in roles at most. */
  ghost predicate SameLinks(facts: seq<Fact>, facts': seq<Fact>) {
    && |facts| == |facts'|
    && forall i :: 0 <= i < |facts| ==>
      facts'[i].resolved == facts[i].resolved && facts'[i].availability == facts[i].availability
  }

  ghost predicate Holds(facts: seq<Fact>, p: Pending) {
    p.node < |facts| && p.role in facts[p.node].roles
  }

  /** Whatever is held or pending in range is reached. */
  ghost predicate Sound(nodes: seq<HirNode>, edges: seq<nat>, initial: seq<Fact>, facts: seq<Fact>,
      pending: seq<Pending>)
    requires EdgesOk(nodes, edges)
  {
    && (forall y: nat, role :: Holds(facts, Pending(y, role)) ==> Reached(nodes, edges, initial, role, y))
    && (forall k :: 0 <= k < |pending| && pending[k].node < |initial| ==>
      Reached(nodes, edges, initial, pending[k].role, pending[k].node))
  }

  ghost predicate Due(facts: seq<Fact>, pending: seq<Pending>, p: Pending) {
    p.node < |facts| ==> Holds(facts, p) || p in pending
  }

  /** Whatever a held role passes to, and every seed, is held or pending. */
  ghost predicate Covered(nodes: seq<HirNode>, edges: seq<nat>, facts: seq<Fact>, pending: seq<Pending>)
    requires EdgesOk(nodes, edges)
  {
    && (forall p :: IsSeed(nodes, edges, p) ==> Due(facts, pending, p))
    && (forall x: nat, y: nat, role ::
          Holds(facts, Pending(x, role)) && Passes(nodes, edges, facts, x, y) ==> Due(facts, pending, Pending(y, role)))
  }

  function RolesLeft(facts: seq<Fact>): nat {
    if facts == [] then 0 else
      RolesLeft(facts[..|facts| - 1])
      + (if Structural in facts[|facts| - 1].roles then 0 else 1) + if Relocatable in facts[|facts| - 1].roles
        then 0 else 1
  }

  lemma {:induction false} RolesLeftDrops(facts: seq<Fact>, i: nat, role: Role)
    requires i < |facts| && role !in facts[i].roles
    ensures RolesLeft(facts[i := facts[i].(roles := facts[i].roles + {role})]) == RolesLeft(facts) - 1
  {
    var facts' := facts[i := facts[i].(roles := facts[i].roles + {role})];
    if i < |facts| - 1 {
      RolesLeftDrops(facts[..|facts| - 1], i, role);
      assert facts'[..|facts| - 1] == facts[..|facts| - 1][i := facts'[i]];
    } else {
      assert facts'[..|facts| - 1] == facts[..|facts| - 1];
    }
  }

  method CollectSeeds(nodes: seq<HirNode>, edges: seq<nat>) returns (pending: seq<Pending>)
    requires EdgesOk(nodes, edges)
    ensures forall p :: p in pending <==> IsSeed(nodes, edges, p)
  {
    pending := [];
    for i := 0 to |nodes|
      invariant forall p :: p in pending <==> SeedOfFirst(nodes, edges, i, p)
    {
      SeedsOneMore(nodes, edges, i);
      pending := pending + SeedsOf(nodes[i].kind, NodeEdges(nodes[i], edges));
    }
  }

  lemma SeedsOneMore(nodes: seq<HirNode>, edges: seq<nat>, i: nat)
    requires EdgesOk(nodes, edges) && i < |nodes|
    ensures forall p :: SeedOfFirst(nodes, edges, i + 1, p) <==>
      SeedOfFirst(nodes, edges, i, p) || p in SeedsOf(nodes[i].kind, NodeEdges(nodes[i], edges))
  {
    assert forall p :: ImposedBy(nodes, edges, i, p) <==> p in SeedsOf(nodes[i].kind, NodeEdges(nodes[i], edges));
  }

  /** The fixpoint: a node ends up with a role exactly when child edges and resolutions lead to it from a child in a
      position that imposes the role. */
  method PropagateDependencyRoles(nodes: seq<HirNode>, edges: seq<nat>, facts: array<Fact>)
    requires EdgesOk(nodes, edges)
    requires forall i :: 0 <= i < facts.Length ==> facts[i].roles == {}
    modifies facts
    ensures SameLinks(old(facts[..]), facts[..])
    ensures forall y: nat, role :: y < facts.Length ==>
      (role in facts[y].roles <==> Used(nodes, edges, old(facts[..]), role, y))
  {
    ghost var initial := facts[..];
    var pending := CollectSeeds(nodes, edges);
    StartsSound(nodes, edges, initial, pending);
    while pending != []
      invariant SameLinks(initial, facts[..])
      invariant Sound(nodes, edges, initial, facts[..], pending) && Covered(nodes, edges, facts[..], pending)
      decreases RolesLeft(facts[..]), |pending|
    {
      var p := pending[|pending| - 1];
      var rest := pending[..|pending| - 1];
      ghost var was := facts[..];
      if p.node >= facts.Length || p.role in facts[p.node].roles {
        SkipStep(nodes, edges, initial, was, pending);
        pending := rest;
      } else {
        var fact := facts[p.node];
        var children := if p.node < |nodes| then WithRole(NodeEdges(nodes[p.node], edges), p.role) else [];
        var resolved := if fact.resolved.Some? then [Pending(fact.resolved.value, p.role)] else [];
        RolesLeftDrops(was, p.node, p.role);
        GrantStep(nodes, edges, initial, was, pending, children, resolved);
        facts[p.node] := fact.(roles := fact.roles + {p.role});
        assert facts[..] == was[p.node := was[p.node].(roles := was[p.node].roles + {p.role})];
        pending := rest + children + resolved;
      }
    }
    forall y: nat, role | y < facts.Length
      ensures role in facts[y].roles <==> Used(nodes, edges, initial, role, y)
    {
      FixpointIsExact(nodes, edges, initial, facts[..], role, y);
      ReachedMeans(nodes, edges, initial, role, y);
    }
  }

  lemma FixpointIsExact(nodes: seq<HirNode>, edges: seq<nat>, initial: seq<Fact>, facts: seq<Fact>, role: Role, y: nat)
    requires EdgesOk(nodes, edges) && SameLinks(initial, facts) && y < |facts|
    requires Sound(nodes, edges, initial, facts, []) && Covered(nodes, edges, facts, [])
    ensures role in facts[y].roles <==> Reached(nodes, edges, initial, role, y)
  {
    if Reached(nodes, edges, initial, role, y) {
      var n: nat :| ReachedIn(nodes, edges, initial, role, y, n);
      FixpointIsLeast(nodes, edges, initial, facts, role, y, n);
    }
    assert role in facts[y].roles ==> Holds(facts, Pending(y, role));
  }

  lemma StartsSound(nodes: seq<HirNode>, edges: seq<nat>, initial: seq<Fact>, pending: seq<Pending>)
    requires EdgesOk(nodes, edges)
    requires forall i :: 0 <= i < |initial| ==> initial[i].roles == {}
    requires forall p :: p in pending <==> IsSeed(nodes, edges, p)
    ensures Sound(nodes, edges, initial, initial, pending) && Covered(nodes, edges, initial, pending)
  {
    forall k | 0 <= k < |pending| && pending[k].node < |initial|
      ensures Reached(nodes, edges, initial, pending[k].role, pending[k].node)
    {
      assert pending[k] in pending;
      ReachedSeed(nodes, edges, initial, pending[k].role, pending[k].node);
    }
  }

  lemma StillDue(facts: seq<Fact>, facts': seq<Fact>, pending: seq<Pending>, pending': seq<Pending>, p: Pending)
    requires pending != [] && Due(facts, pending, p) && |facts| == |facts'|
    requires Holds(facts, p) ==> Holds(facts', p)
    requires p == pending[|pending| - 1] && p.node < |facts| ==> Holds(facts', p)
    requires forall k :: 0 <= k < |pending| - 1 ==> pending[k] in pending'
    ensures Due(facts', pending', p)
  {
  }

  /** Dropping an entry that is out of range or already granted. */
  lemma SkipStep(nodes: seq<HirNode>, edges: seq<nat>, initial: seq<Fact>, facts: seq<Fact>, pending: seq<Pending>)
    requires EdgesOk(nodes, edges) && pending != [] && SameLinks(initial, facts)
    requires Sound(nodes, edges, initial, facts, pending) && Covered(nodes, edges, facts, pending)
    requires var p := pending[|pending| - 1]; p.node >= |facts| || Holds(facts, p)
    ensures Sound(nodes, edges, initial, facts, pending[..|pending| - 1])
    ensures Covered(nodes, edges, facts, pending[..|pending| - 1])
  {
    var rest := pending[..|pending| - 1];
    forall k | 0 <= k < |pending| - 1
      ensures pending[k] in rest
    {
      assert rest[k] == pending[k];
    }
    forall p | IsSeed(nodes, edges, p)
      ensures Due(facts, rest, p)
    {
      StillDue(facts, facts, pending, rest, p);
    }
    forall x: nat, y: nat, role | Holds(facts, Pending(x, role)) && Passes(nodes, edges, facts, x, y)
      ensures Due(facts, rest, Pending(y, role))
    {
      StillDue(facts, facts, pending, rest, Pending(y, role));
    }
  }

  function Granted(facts: seq<Fact>, p: Pending): (facts': seq<Fact>)
    requires p.node < |facts|
    ensures |facts'| == |facts|
  {
    facts[p.node := facts[p.node].(roles := facts[p.node].roles + {p.role})]
  }

  /** Granting a role and queueing everything it passes to. */
  lemma GrantStep(nodes: seq<HirNode>, edges: seq<nat>, initial: seq<Fact>, facts: seq<Fact>, pending: seq<Pending>,
                  children: seq<Pending>, resolved: seq<Pending>)
    requires EdgesOk(nodes, edges) && pending != [] && SameLinks(initial, facts)
    requires Sound(nodes, edges, initial, facts, pending) && Covered(nodes, edges, facts, pending)
    requires var p := pending[|pending| - 1];
      && p.node < |facts|
      && children == (if p.node < |nodes| then WithRole(NodeEdges(nodes[p.node], edges), p.role) else [])
      && resolved == (if facts[p.node].resolved.Some? then [Pending(facts[p.node].resolved.value, p.role)] else [])
    ensures var facts', pending' := Granted(facts, pending[|pending| - 1]),
      pending[..|pending| - 1] + children + resolved;
      SameLinks(initial, facts') && Sound(nodes, edges, initial, facts', pending') && Covered(nodes, edges, facts',
        pending')
  {
    var p, rest := pending[|pending| - 1], pending[..|pending| - 1];
    var facts', pending' := Granted(facts, p), rest + children + resolved;
    GrantIsSound(nodes, edges, initial, facts, pending, children, resolved, facts', pending');
    forall k | 0 <= k < |pending| - 1
      ensures pending[k] in pending'
    {
      assert pending'[k] == pending[k];
    }
    forall q | IsSeed(nodes, edges, q)
      ensures Due(facts', pending', q)
    {
      StillDue(facts, facts', pending, pending', q);
    }
    forall x: nat, y: nat, role | Holds(facts', Pending(x, role)) && Passes(nodes, edges, facts', x, y)
      ensures Due(facts', pending', Pending(y, role))
    {
      assert Passes(nodes, edges, facts, x, y);
      if Pending(x, role) == p {
        PassedIsQueued(nodes, edges, facts, p, y, rest, children, resolved);
      } else {
        assert Holds(facts, Pending(x, role));
        StillDue(facts, facts', pending, pending', Pending(y, role));
      }
    }
  }

  lemma PassedIsQueued(nodes: seq<HirNode>, edges: seq<nat>, facts: seq<Fact>, p: Pending, y: nat, rest: seq<Pending>,
                       children: seq<Pending>, resolved: seq<Pending>)
    requires EdgesOk(nodes, edges) && p.node < |facts| && Passes(nodes, edges, facts, p.node, y)
    requires children == (if p.node < |nodes| then WithRole(NodeEdges(nodes[p.node], edges), p.role) else [])
    requires resolved == (if facts[p.node].resolved.Some? then [Pending(facts[p.node].resolved.value, p.role)] else [])
    ensures Pending(y, p.role) in rest + children + resolved
  {
    if p.node < |nodes| && y in NodeEdges(nodes[p.node], edges) {
      var k :| 0 <= k < |NodeEdges(nodes[p.node], edges)| && NodeEdges(nodes[p.node], edges)[k] == y;
      assert children[k] == Pending(y, p.role);
    } else {
      assert resolved[0] == Pending(y, p.role);
    }
  }

  lemma GrantIsSound(nodes: seq<HirNode>, edges: seq<nat>, initial: seq<Fact>, facts: seq<Fact>, pending: seq<Pending>,
                     children: seq<Pending>, resolved: seq<Pending>, facts': seq<Fact>, pending': seq<Pending>)
    requires EdgesOk(nodes, edges) && pending != [] && SameLinks(initial, facts)
    requires Sound(nodes, edges, initial, facts, pending)
    requires var p := pending[|pending| - 1];
      && p.node < |facts| && facts' == Granted(facts, p) && pending' == pending[..|pending| - 1] + children + resolved
      && children == (if p.node < |nodes| then WithRole(NodeEdges(nodes[p.node], edges), p.role) else [])
      && resolved == (if facts[p.node].resolved.Some? then [Pending(facts[p.node].resolved.value, p.role)] else [])
    ensures Sound(nodes, edges, initial, facts', pending')
  {
    var p := pending[|pending| - 1];
    assert Reached(nodes, edges, initial, p.role, p.node);
    forall y: nat, role | Holds(facts', Pending(y, role))
      ensures Reached(nodes, edges, initial, role, y)
    {
      assert Pending(y, role) == p || Holds(facts, Pending(y, role));
    }
    forall k | 0 <= k < |pending'| && pending'[k].node < |initial|
      ensures Reached(nodes, edges, initial, pending'[k].role, pending'[k].node)
    {
      if k < |pending| - 1 {
        assert pending'[k] == pending[k];
      } else {
        assert pending'[k] in children || pending'[k] in resolved;
        assert Passes(nodes, edges, initial, p.node, pending'[k].node);
        ReachedNext(nodes, edges, initial, p.role, p.node, pending'[k].node);
      }
    }
  }

  /** With nothing pending, every reached node holds the role. */
  lemma {:induction false} FixpointIsLeast(nodes: seq<HirNode>, edges: seq<nat>, initial: seq<Fact>,
      facts: seq<Fact>, role: Role, y: nat, n: nat)
    requires EdgesOk(nodes, edges) && SameLinks(initial, facts) && Covered(nodes, edges, facts, [])
    requires ReachedIn(nodes, edges, initial, role, y, n)
    ensures Holds(facts, Pending(y, role))
    decreases n
  {
    if IsSeed(nodes, edges, Pending(y, role)) {
      assert Due(facts, [], Pending(y, role));
    } else {
      var x: nat :| ReachedIn(nodes, edges, initial, role, x, n - 1) && Passes(nodes, edges, initial, x, y);
      FixpointIsLeast(nodes, edges, initial, facts, role, x, n - 1);
      assert Passes(nodes, edges, facts, x, y);
      assert Due(facts, [], Pending(y, role));
    }
  }

  /** The first node known only at link time whose value shapes the program; none exactly when no such node is
      led to from what shapes the program. */
  method FirstLinkStructuralUse(nodes: seq<HirNode>, edges: seq<nat>, facts: array<Fact>, ghost initial: seq<Fact>)
    returns (first: Option<nat>)
    requires EdgesOk(nodes, edges) && |nodes| == facts.Length == |initial| && SameLinks(initial, facts[..])
    requires forall y: nat, role :: y < facts.Length ==>
      (role in facts[y].roles <==> Used(nodes, edges, initial, role, y))
    ensures first.None? <==>
      forall y: nat :: y < |nodes| && initial[y].availability == Link ==> !Used(nodes, edges, initial, Structural, y)
    ensures first.Some? ==> first.value < |nodes| && initial[first.value].availability == Link && Used(nodes,
      edges, initial, Structural, first.value)
    ensures first.Some? ==> forall y: nat :: y < first.value && initial[y].availability == Link ==>
      !Used(nodes, edges, initial, Structural, y)
  {
    for i := 0 to |nodes|
      invariant forall y: nat :: y < i && initial[y].availability == Link ==>
        !Used(nodes, edges, initial, Structural, y)
    {
      if facts[i].availability == Link && Structural in facts[i].roles {
        return Some(i);
      }
    }
    return None;
  }
}
