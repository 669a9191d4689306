/** The incremental query graph: what a session records, when a recorded result may be
    reused, and why a replayed result is the one a fresh run would compute. */
module Incremental {
  import opened Common

  /** What hashing yields, free of collisions: a value, or an ordered list of fingerprints. */
  datatype Fingerprint = Value(content: nat) | Parts(parts: seq<Fingerprint>)

  datatype DepKind =
    | SourceText | ParseModule | IndexModule | DefinitionHeader | LowerSourceHir | ResolveDefinition
    | ReachableDefinitions | InferTypes | InferAvailability | AnalyzeDependencyRoles | CollectDiagnostics | CheckEntry

  datatype Query = Query(kind: DepKind, key: Fingerprint)

  datatype StoredNode = StoredNode(kind: DepKind, key: Fingerprint, result: Fingerprint, edgeStart: nat, edgeCount: nat)

  datatype Graph = Graph(nodes: seq<StoredNode>, edges: seq<nat>)

  function QueryOf(g: Graph, i: nat): Query
    requires i < |g.nodes|
  {
    Query(g.nodes[i].kind, g.nodes[i].key)
  }

  predicate InRange(g: Graph, i: nat)
    requires i < |g.nodes|
  {
    g.nodes[i].edgeStart + g.nodes[i].edgeCount <= |g.edges|
  }

  function Deps(g: Graph, i: nat): (deps: seq<nat>)
    requires i < |g.nodes| && InRange(g, i)
    ensures |deps| == g.nodes[i].edgeCount
  {
    g.edges[g.nodes[i].edgeStart..g.nodes[i].edgeStart + g.nodes[i].edgeCount]
  }

  /** Dependencies were recorded before the nodes that use them. */
  predicate NodeOk(g: Graph, i: nat)
    requires i < |g.nodes|
  {
    InRange(g, i) && forall k :: 0 <= k < |Deps(g, i)| ==> Deps(g, i)[k] < i
  }

  ghost predicate GraphOk(g: Graph) {
    forall i :: 0 <= i < |g.nodes| ==> NodeOk(g, i)
  }

  // ---- what recorded results mean

  /** A query either asks for another query next, given the answers so far, or is done. */
  datatype Step = Read(query: Query) | Done(result: Fingerprint)

  /** The providers of one compiler version, and the source texts of one session. */
  datatype Semantics = Semantics(input: Fingerprint -> Fingerprint, next: (Query, seq<Fingerprint>) -> Step)

  function Results(g: Graph, ids: seq<nat>): (rs: seq<Fingerprint>)
    requires forall k :: 0 <= k < |ids| ==> ids[k] < |g.nodes|
    ensures |rs| == |ids| && forall k :: 0 <= k < |ids| ==> rs[k] == g.nodes[ids[k]].result
  {
    seq(|ids|, k requires 0 <= k < |ids| => g.nodes[ids[k]].result)
  }

  /** Reading `deps` in order and then answering `result` is how query `q` runs. */
  ghost predicate Runs(s: Semantics, g: Graph, q: Query, result: Fingerprint, deps: seq<nat>) {
    && (forall k :: 0 <= k < |deps| ==> deps[k] < |g.nodes|)
    && if q.kind == SourceText then deps == [] && result == s.input(q.key)
       else
         && (forall k :: 0 <= k < |deps| ==> s.next(q, Results(g, deps)[..k]) == Read(QueryOf(g, deps[k])))
         && s.next(q, Results(g, deps)) == Done(result)
  }

  ghost predicate Traced(s: Semantics, g: Graph, i: nat)
    requires i < |g.nodes| && NodeOk(g, i)
  {
    Runs(s, g, QueryOf(g, i), g.nodes[i].result, Deps(g, i))
  }

  /** Every recorded result is what its query computes from its recorded dependencies. */
  ghost predicate Fresh(s: Semantics, g: Graph) {
    GraphOk(g) && forall i :: 0 <= i < |g.nodes| ==> NodeOk(g, i) && Traced(s, g, i)
  }

  /** The special case of pure providers: both sessions run the same ones, and each recorded
      answer is what they compute from the answers it read. The queries recorded for a report
      are not of this kind: some depend on more than they read. `QueryReuse` treats them kind
      by kind, and `CheckSession` the check as it is. */
  ghost predicate Pure(s0: Semantics, s1: Semantics, g: Graph) {
    s0.next == s1.next && Fresh(s0, g)
  }

  /** In the same session a query has one result, and one list of dependencies, wherever it was recorded. */
  lemma {:induction false} FreshResultsAgree(s: Semantics, g: Graph, h: Graph, i: nat, j: nat)
    requires Fresh(s, g) && Fresh(s, h) && i < |g.nodes| && j < |h.nodes| && QueryOf(g, i) == QueryOf(h, j)
    ensures g.nodes[i].result == h.nodes[j].result
    ensures NodeOk(g, i) && NodeOk(h, j) && |Deps(g, i)| == |Deps(h, j)|
    ensures forall k :: 0 <= k < |Deps(g, i)| ==>
      Deps(g, i)[k] < |g.nodes| && Deps(h, j)[k] < |h.nodes| && QueryOf(g, Deps(g, i)[k]) == QueryOf(h, Deps(h, j)[k])
    decreases i, 1
  {
    assert NodeOk(g, i) && Traced(s, g, i) && NodeOk(h, j) && Traced(s, h, j);
    if g.nodes[i].kind != SourceText {
      var m, n := |Deps(g, i)|, |Deps(h, j)|;
      var shorter := if m < n then m else n;
      FreshPrefixesAgree(s, g, h, i, j, shorter);
      assert Results(g, Deps(g, i))[..m] == Results(g, Deps(g, i));
      assert Results(h, Deps(h, j))[..n] == Results(h, Deps(h, j));
      assert m == n;
    }
  }

  lemma {:induction false} FreshPrefixesAgree(s: Semantics, g: Graph, h: Graph, i: nat, j: nat, n: nat)
    requires Fresh(s, g) && Fresh(s, h) && i < |g.nodes| && j < |h.nodes| && QueryOf(g, i) == QueryOf(h, j)
    requires g.nodes[i].kind != SourceText
    requires NodeOk(g, i) && NodeOk(h, j) && n <= |Deps(g, i)| && n <= |Deps(h, j)|
    ensures forall k :: 0 <= k < |Deps(g, i)| ==> Deps(g, i)[k] < |g.nodes|
    ensures forall k :: 0 <= k < |Deps(h, j)| ==> Deps(h, j)[k] < |h.nodes|
    ensures Results(g, Deps(g, i))[..n] == Results(h, Deps(h, j))[..n]
    ensures forall k :: 0 <= k < n ==> QueryOf(g, Deps(g, i)[k]) == QueryOf(h, Deps(h, j)[k])
    decreases i, 0, n
  {
    assert Traced(s, g, i) && Traced(s, h, j);
    if n > 0 {
      FreshPrefixesAgree(s, g, h, i, j, n - 1);
      var d, e := Deps(g, i)[n - 1], Deps(h, j)[n - 1];
      assert s.next(QueryOf(g, i), Results(g, Deps(g, i))[..n - 1]) == Read(QueryOf(g, d));
      assert s.next(QueryOf(h, j), Results(h, Deps(h, j))[..n - 1]) == Read(QueryOf(h, e));
      FreshResultsAgree(s, g, h, d, e);
      LastOfPrefix(Results(g, Deps(g, i)), Results(h, Deps(h, j)), n);
    }
  }

  lemma LastOfPrefix(xs: seq<Fingerprint>, ys: seq<Fingerprint>, n: nat)
    requires 0 < n <= |xs| && n <= |ys| && xs[..n - 1] == ys[..n - 1] && xs[n - 1] == ys[n - 1]
    ensures xs[..n] == ys[..n]
  {
    assert xs[..n] == xs[..n - 1] + [xs[n - 1]] && ys[..n] == ys[..n - 1] + [ys[n - 1]];
  }

  // ---- sessions

  /** A lookup finds, for each recorded query, a node that holds it. */
  ghost predicate LookupOk(g: Graph, lookup: map<Query, nat>) {
    && (forall q | q in lookup :: lookup[q] < |g.nodes| && QueryOf(g, lookup[q]) == q)
    && (forall i :: 0 <= i < |g.nodes| ==> QueryOf(g, i) in lookup)
  }

  predicate GraphExtends(g: Graph, h: Graph) {
    g.nodes <= h.nodes && g.edges <= h.edges
  }

  lemma ExtendedNodes(g: Graph, h: Graph, i: nat)
    requires GraphExtends(g, h) && i < |g.nodes| && NodeOk(g, i)
    ensures NodeOk(h, i) && Deps(h, i) == Deps(g, i) && QueryOf(h, i) == QueryOf(g, i)
  {
    assert Deps(h, i) == Deps(g, i);
  }

  /** The graph after recording one more query. */
  function Appended(g: Graph, kind: DepKind, key: Fingerprint, result: Fingerprint, deps: seq<nat>): Graph {
    Graph(g.nodes + [StoredNode(kind, key, result, |g.edges|, |deps|)], g.edges + deps)
  }

  lemma AppendedOk(g: Graph, kind: DepKind, key: Fingerprint, result: Fingerprint, deps: seq<nat>)
    requires GraphOk(g) && forall k :: 0 <= k < |deps| ==> deps[k] < |g.nodes|
    ensures GraphOk(Appended(g, kind, key, result, deps)) && GraphExtends(g, Appended(g, kind, key, result, deps))
    ensures NodeOk(Appended(g, kind, key, result, deps), |g.nodes|)
    ensures Deps(Appended(g, kind, key, result, deps), |g.nodes|) == deps
  {
    var h := Appended(g, kind, key, result, deps);
    assert Deps(h, |g.nodes|) == deps;
    forall i | 0 <= i < |h.nodes| ensures NodeOk(h, i) {
      if i < |g.nodes| {
        assert NodeOk(g, i);
        ExtendedNodes(g, h, i);
      }
    }
  }

  lemma RunsStable(s: Semantics, g: Graph, h: Graph, q: Query, result: Fingerprint, deps: seq<nat>)
    requires GraphExtends(g, h) && Runs(s, g, q, result, deps)
    ensures Runs(s, h, q, result, deps)
  {
    assert Results(h, deps) == Results(g, deps);
  }

  /** Recording an honest answer keeps the graph fresh. */
  lemma AppendedFresh(s: Semantics, g: Graph, kind: DepKind, key: Fingerprint, result: Fingerprint, deps: seq<nat>)
    requires Fresh(s, g) && Runs(s, g, Query(kind, key), result, deps)
    ensures Fresh(s, Appended(g, kind, key, result, deps))
  {
    var h := Appended(g, kind, key, result, deps);
    AppendedOk(g, kind, key, result, deps);
    forall i | 0 <= i < |h.nodes| ensures NodeOk(h, i) && Traced(s, h, i) {
      if i < |g.nodes| {
        assert NodeOk(g, i) && Traced(s, g, i);
        ExtendedNodes(g, h, i);
        RunsStable(s, g, h, QueryOf(g, i), g.nodes[i].result, Deps(g, i));
      } else {
        RunsStable(s, g, h, Query(kind, key), result, deps);
      }
    }
  }

  /** A dependency in one graph and one in another hold the same query with the same result. */
  predicate SameAnswer(g: Graph, i: nat, h: Graph, j: nat) {
    i < |g.nodes| && j < |h.nodes| && QueryOf(g, i) == QueryOf(h, j) && g.nodes[i].result == h.nodes[j].result
  }

  predicate SameAnswers(g: Graph, ids: seq<nat>, h: Graph, js: seq<nat>) {
    |ids| == |js| && forall k :: 0 <= k < |ids| ==> SameAnswer(g, ids[k], h, js[k])
  }

  /** Early cutoff: equal answers from the dependencies, so the recorded result stands,
      even though the source texts have changed. */
  lemma ReusedAnswerRuns(old_: Semantics, new_: Semantics, g: Graph, h: Graph, i: nat, deps: seq<nat>)
    requires Pure(old_, new_, g) && i < |g.nodes| && g.nodes[i].kind != SourceText
    requires NodeOk(g, i) && SameAnswers(g, Deps(g, i), h, deps)
    ensures Runs(new_, h, QueryOf(g, i), g.nodes[i].result, deps)
  {
    assert Traced(old_, g, i);
    assert Results(h, deps) == Results(g, Deps(g, i));
  }

  // ---- replay

  /** The progress of one replay: where it started, which previous nodes have a counterpart
      in the current graph, and which previous node each new current node was copied from. */
  datatype Replay = Replay(root: nat, start: Graph, known: map<Query, nat>, mapped: map<nat, nat>,
    origin: map<nat, nat>)

  /** `i` is read by the replay of `root`: nothing above it was known when the replay began. */
  ghost predicate Visible(p: Graph, known: map<Query, nat>, root: nat, i: nat)
    decreases root
  {
    GraphOk(p) && root < |p.nodes| && NodeOk(p, root) &&
    (i == root ||
     (QueryOf(p, root) !in known && exists k :: 0 <= k < |Deps(p, root)| && Visible(p, known, Deps(p, root)[k], i)))
  }

  /** Current node `j` is a copy of previous node `i`, reading the counterparts of its dependencies. */
  ghost predicate CopyOf(p: Graph, t: Replay, c: Graph, i: nat, j: nat) {
    && i < |p.nodes| && NodeOk(p, i) && j < |c.nodes| && NodeOk(c, j)
    && SameAnswer(p, i, c, j) && QueryOf(p, i) !in t.known && Visible(p, t.known, t.root, i)
    && (forall k :: 0 <= k < |Deps(p, i)| ==> Deps(p, i)[k] in t.mapped)
    && SameAnswers(p, Deps(p, i), c, Deps(c, j))
  }

  /** A mapped node's counterpart is where the current lookup finds its query, with the same result. */
  ghost predicate MappedOk(p: Graph, mapped: map<nat, nat>, c: Graph, lookup: map<Query, nat>) {
    forall i | i in mapped ::
      i < |p.nodes| && QueryOf(p, i) in lookup && mapped[i] == lookup[QueryOf(p, i)] && SameAnswer(p, i, c, mapped[i])
  }

  /** Every node recorded since the replay began is a copy of a previous one. */
  ghost predicate OriginOk(p: Graph, t: Replay, c: Graph) {
    forall j :: |t.start.nodes| <= j < |c.nodes| ==> j in t.origin && CopyOf(p, t, c, t.origin[j], j)
  }

  /** The lookup finds known queries where they were, and others among the new nodes. */
  ghost predicate KnownKept(t: Replay, lookup: map<Query, nat>) {
    && (forall q | q in t.known :: q in lookup && lookup[q] == t.known[q] && t.known[q] < |t.start.nodes|)
    && (forall q | q in lookup && q !in t.known :: |t.start.nodes| <= lookup[q])
  }

  /** What holds at every point of a replay. */
  ghost predicate ReplayOk(p: Graph, t: Replay, c: Graph, lookup: map<Query, nat>) {
    && GraphOk(p) && t.root < |p.nodes| && GraphOk(c) && GraphExtends(t.start, c)
    && KnownKept(t, lookup) && MappedOk(p, t.mapped, c, lookup)
    && OriginOk(p, t, c)
  }

  /** Every pending node will be read, and a node on its way out has its dependencies mapped or above it. */
  ghost predicate StackOk(p: Graph, t: Replay, stack: seq<(nat, bool)>) {
    && GraphOk(p)
    && (forall n :: 0 <= n < |stack| ==>
      stack[n].0 < |p.nodes| && NodeOk(p, stack[n].0) && Visible(p, t.known, t.root, stack[n].0))
    && (forall n :: 0 <= n < |stack| && stack[n].1 ==>
      QueryOf(p, stack[n].0) !in t.known &&
      forall k :: 0 <= k < |Deps(p, stack[n].0)| ==> Covered(t, stack, n + 1, Deps(p, stack[n].0)[k]))
    && Covered(t, stack, 0, t.root)
  }

  /** `i` is mapped already, or pending at position `from` or above. */
  ghost predicate Covered(t: Replay, stack: seq<(nat, bool)>, from: nat, i: nat) {
    i in t.mapped || exists n :: from <= n < |stack| && stack[n].0 == i
  }

  /** A replay stops when a node it reads has changed: the current graph answers it differently. */
  ghost predicate ReplayBlocked(p: Graph, t: Replay, c: Graph, lookup: map<Query, nat>) {
    exists i: nat :: i < |p.nodes| && Visible(p, t.known, t.root, i) && QueryOf(p, i) in lookup &&
      lookup[QueryOf(p, i)] < |c.nodes|
      && c.nodes[lookup[QueryOf(p, i)]].result != p.nodes[i].result
  }

  /** The size of the tree a node unfolds to; it bounds the work of a replay. */
  ghost function Weight(p: Graph, i: nat): nat
    decreases i, 1, 0
  {
    if i < |p.nodes| && NodeOk(p, i) then 2 + WeightSum(p, Deps(p, i), i) else 2
  }

  ghost function WeightSum(p: Graph, ids: seq<nat>, bound: nat): nat
    requires forall k :: 0 <= k < |ids| ==> ids[k] < bound
    decreases bound, 0, |ids|
  {
    if ids == [] then 0 else Weight(p, ids[0]) + WeightSum(p, ids[1..], bound)
  }

  ghost function EntryWeight(p: Graph, entry: (nat, bool)): nat {
    if entry.1 then 1 else Weight(p, entry.0)
  }

  ghost function StackWeight(p: Graph, stack: seq<(nat, bool)>): nat {
    if stack == [] then 0 else StackWeight(p, stack[..|stack| - 1]) + EntryWeight(p, stack[|stack| - 1])
  }

  lemma StackWeightPush(p: Graph, stack: seq<(nat, bool)>, entry: (nat, bool))
    ensures StackWeight(p, stack + [entry]) == StackWeight(p, stack) + EntryWeight(p, entry)
  {
    assert (stack + [entry])[..|stack|] == stack;
  }

  lemma {:induction false} StackWeightAppend(p: Graph, xs: seq<(nat, bool)>, ys: seq<(nat, bool)>)
    ensures StackWeight(p, xs + ys) == StackWeight(p, xs) + StackWeight(p, ys)
    decreases |ys|
  {
    if ys == [] {
      assert xs + ys == xs;
    } else {
      assert (xs + ys)[..|xs + ys| - 1] == xs + ys[..|ys| - 1];
      StackWeightAppend(p, xs, ys[..|ys| - 1]);
    }
  }

  /** A replay begins with its root pending and nothing mapped. */
  lemma ReplayBegins(p: Graph, root: nat, c: Graph, lookup: map<Query, nat>)
    requires GraphOk(p) && root < |p.nodes| && GraphOk(c) && LookupOk(c, lookup)
    ensures ReplayOk(p, Replay(root, c, lookup, map[], map[]), c, lookup)
    ensures StackOk(p, Replay(root, c, lookup, map[], map[]), [(root, false)])
  {
    assert NodeOk(p, root) && Visible(p, lookup, root, root) && [(root, false)][0].0 == root;
  }

  /** Once the top entry is mapped, the rest of the worklist is in order. */
  lemma PopMapped(p: Graph, t: Replay, t': Replay, stack: seq<(nat, bool)>, entry: (nat, bool))
    requires StackOk(p, t, stack + [entry]) && t'.root == t.root && t'.known == t.known
    requires entry.0 in t'.mapped && forall i | i in t.mapped :: i in t'.mapped
    ensures StackOk(p, t', stack)
  {
    var full := stack + [entry];
    forall n | 0 <= n < |stack| ensures stack[n] == full[n] { }
    forall n, k | 0 <= n < |stack| && stack[n].1 && 0 <= k < |Deps(p, stack[n].0)|
      ensures Covered(t', stack, n + 1, Deps(p, stack[n].0)[k])
    {
      assert full[n] == stack[n];
      PopCovered(t, t', stack, entry, n + 1, Deps(p, stack[n].0)[k]);
    }
    PopCovered(t, t', stack, entry, 0, t.root);
  }

  lemma PopCovered(t: Replay, t': Replay, stack: seq<(nat, bool)>, entry: (nat, bool), from: nat, i: nat)
    requires Covered(t, stack + [entry], from, i)
    requires entry.0 in t'.mapped && forall x | x in t.mapped :: x in t'.mapped
    ensures Covered(t', stack, from, i)
  {
    if i !in t.mapped {
      var n :| from <= n < |stack + [entry]| && (stack + [entry])[n].0 == i;
      if n < |stack| {
        assert stack[n].0 == i;
      }
    }
  }

  lemma TopOfStack(p: Graph, t: Replay, stack: seq<(nat, bool)>, entry: (nat, bool))
    requires StackOk(p, t, stack + [entry])
    ensures entry.0 < |p.nodes| && NodeOk(p, entry.0) && Visible(p, t.known, t.root, entry.0)
    ensures entry.1 ==> QueryOf(p, entry.0) !in t.known
    ensures entry.1 ==> forall k :: 0 <= k < |Deps(p, entry.0)| ==> Deps(p, entry.0)[k] in t.mapped
  {
    var full := stack + [entry];
    var n := |stack|;
    assert full[n] == entry;
    if entry.1 {
      forall k | 0 <= k < |Deps(p, entry.0)| ensures Deps(p, entry.0)[k] in t.mapped {
        assert Covered(t, full, n + 1, Deps(p, full[n].0)[k]);
      }
    }
  }

  /** Visibility passes from a node that was not known to its dependencies. */
  lemma {:induction false} VisibleStep(p: Graph, known: map<Query, nat>, root: nat, i: nat, k: nat)
    requires Visible(p, known, root, i) && i < |p.nodes| && NodeOk(p, i) && QueryOf(p, i) !in known && k < |Deps(p, i)|
    ensures Visible(p, known, root, Deps(p, i)[k])
    decreases root
  {
    if i == root {
      assert Deps(p, root)[k] < root && NodeOk(p, Deps(p, root)[k]);
      assert Visible(p, known, Deps(p, root)[k], Deps(p, root)[k]);
    } else {
      var m :| 0 <= m < |Deps(p, root)| && Visible(p, known, Deps(p, root)[m], i);
      VisibleStep(p, known, Deps(p, root)[m], i, k);
    }
  }

  /** Every node of the expanded worklist will be read. */
  lemma ExpandedVisible(p: Graph, t: Replay, stack: seq<(nat, bool)>, at: nat, pushed: seq<(nat, bool)>, n: nat)
    requires StackOk(p, t, stack + [(at, false)]) && at < |p.nodes| && NodeOk(p, at) && QueryOf(p, at) !in t.known
    requires forall m :: 0 <= m < |pushed| ==> !pushed[m].1 && pushed[m].0 in Deps(p, at)
    requires n < |stack + [(at, true)] + pushed|
    ensures var i := (stack + [(at, true)] + pushed)[n].0;
      i < |p.nodes| && NodeOk(p, i) && Visible(p, t.known, t.root, i)
  {
    var was, full := stack + [(at, false)], stack + [(at, true)] + pushed;
    if n < |was| {
      assert full[n].0 == was[n].0;
    } else {
      assert full[n] == pushed[n - |was|];
      var k :| 0 <= k < |Deps(p, at)| && Deps(p, at)[k] == full[n].0;
      TopOfStack(p, t, stack, (at, false));
      VisibleStep(p, t.known, t.root, at, k);
    }
  }

  /** What a node on its way out reads is mapped or above it. */
  lemma ExpandedCovered(p: Graph, t: Replay, stack: seq<(nat, bool)>, at: nat, pushed: seq<(nat, bool)>, n: nat,
      i: nat, k: nat)
    requires StackOk(p, t, stack + [(at, false)]) && at < |p.nodes| && NodeOk(p, at)
    requires forall j :: 0 <= j < |Deps(p, at)| ==> Covered(t, pushed, 0, Deps(p, at)[j])
    requires n <= |stack| && (stack + [(at, true)] + pushed)[n] == (i, true)
    requires i < |p.nodes| && NodeOk(p, i) && k < |Deps(p, i)|
    ensures Covered(t, stack + [(at, true)] + pushed, n + 1, Deps(p, i)[k])
  {
    var was, full := stack + [(at, false)], stack + [(at, true)] + pushed;
    if n < |stack| {
      assert full[n] == was[n];
      assert Covered(t, was, n + 1, Deps(p, was[n].0)[k]);
      RaiseCovered(t, was, full, n + 1, Deps(p, i)[k]);
    } else {
      assert Covered(t, pushed, 0, Deps(p, at)[k]);
      if Deps(p, at)[k] !in t.mapped {
        var m :| 0 <= m < |pushed| && pushed[m].0 == Deps(p, at)[k];
        assert full[|was| + m] == pushed[m];
      }
    }
  }

  lemma PushedEnter(stack: seq<(nat, bool)>, at: nat, pushed: seq<(nat, bool)>, n: nat)
    requires |stack| < n < |stack + [(at, true)] + pushed| && forall m :: 0 <= m < |pushed| ==> !pushed[m].1
    ensures !(stack + [(at, true)] + pushed)[n].1
  {
    assert (stack + [(at, true)] + pushed)[n] == pushed[n - |stack| - 1];
  }

  /** A node on its way out with its unmapped dependencies pushed above it. */
  lemma ExpandedOk(p: Graph, t: Replay, stack: seq<(nat, bool)>, at: nat, pushed: seq<(nat, bool)>)
    requires StackOk(p, t, stack + [(at, false)]) && at < |p.nodes| && NodeOk(p, at) && QueryOf(p, at) !in t.known
    requires forall n :: 0 <= n < |pushed| ==> !pushed[n].1 && pushed[n].0 in Deps(p, at)
    requires forall k :: 0 <= k < |Deps(p, at)| ==> Covered(t, pushed, 0, Deps(p, at)[k])
    ensures StackOk(p, t, stack + [(at, true)] + pushed)
  {
    var was, full := stack + [(at, false)], stack + [(at, true)] + pushed;
    forall n | 0 <= n < |full|
      ensures full[n].0 < |p.nodes| && NodeOk(p, full[n].0) && Visible(p, t.known, t.root, full[n].0)
    {
      ExpandedVisible(p, t, stack, at, pushed, n);
    }
    forall n: nat | n < |full| && full[n].1 ensures n <= |stack| && QueryOf(p, full[n].0) !in t.known {
      if n > |stack| {
        PushedEnter(stack, at, pushed, n);
      } else {
        assert full[n].0 == was[n].0 && (n < |stack| ==> full[n] == was[n]);
      }
    }
    forall n, k | 0 <= n < |full| && full[n].1 && 0 <= k < |Deps(p, full[n].0)|
      ensures Covered(t, full, n + 1, Deps(p, full[n].0)[k])
    {
      ExpandedCovered(p, t, stack, at, pushed, n, full[n].0, k);
    }
    RaiseCovered(t, was, full, 0, t.root);
  }

  lemma RaiseCovered(t: Replay, was: seq<(nat, bool)>, full: seq<(nat, bool)>, from: nat, i: nat)
    requires |was| <= |full| && forall n :: 0 <= n < |was| ==> was[n].0 == full[n].0
    requires Covered(t, was, from, i)
    ensures Covered(t, full, from, i)
  {
    if i !in t.mapped {
      var n :| from <= n < |was| && was[n].0 == i;
      assert full[n].0 == i;
    }
  }

  /** Mapping a node to the current node that already answers its query the same way. */
  lemma ReuseOk(p: Graph, t: Replay, c: Graph, lookup: map<Query, nat>, at: nat)
    requires ReplayOk(p, t, c, lookup) && LookupOk(c, lookup) && at < |p.nodes| && QueryOf(p, at) in lookup
    requires c.nodes[lookup[QueryOf(p, at)]].result == p.nodes[at].result
    ensures ReplayOk(p, t.(mapped := t.mapped[at := lookup[QueryOf(p, at)]]), c, lookup)
  {
    var t' := t.(mapped := t.mapped[at := lookup[QueryOf(p, at)]]);
    forall j | |t.start.nodes| <= j < |c.nodes| ensures j in t'.origin && CopyOf(p, t', c, t'.origin[j], j) {
      CopyStays(p, t, t', c, c, t.origin[j], j);
    }
  }

  /** Copying a node whose dependencies are mapped. */
  lemma CopyOk(p: Graph, t: Replay, t': Replay, c: Graph, c': Graph, lookup: map<Query, nat>, at: nat, deps: seq<nat>)
    requires ReplayOk(p, t, c, lookup) && at < |p.nodes| && NodeOk(p, at) && QueryOf(p, at) !in lookup
    requires QueryOf(p, at) !in t.known && Visible(p, t.known, t.root, at)
    requires |deps| == |Deps(p, at)| && forall k :: 0 <= k < |deps| ==>
      Deps(p, at)[k] in t.mapped && deps[k] == t.mapped[Deps(p, at)[k]]
    requires c' == Appended(c, p.nodes[at].kind, p.nodes[at].key, p.nodes[at].result, deps)
    requires t' == t.(mapped := t.mapped[at := |c.nodes|], origin := t.origin[|c.nodes| := at])
    ensures ReplayOk(p, t', c', lookup[QueryOf(p, at) := |c.nodes|])
  {
    DepsAnswered(p, t, c, lookup, at, deps);
    AppendedOk(c, p.nodes[at].kind, p.nodes[at].key, p.nodes[at].result, deps);
    CopiedOrigin(p, t, t', c, c', at, deps);
    MappedStays(p, t.mapped, c, lookup, at, c');
    CopiedLookup(t, c, lookup, QueryOf(p, at));
  }

  lemma CopiedOrigin(p: Graph, t: Replay, t': Replay, c: Graph, c': Graph, at: nat, deps: seq<nat>)
    requires OriginOk(p, t, c) && at < |p.nodes| && NodeOk(p, at) && QueryOf(p, at) !in t.known
    requires Visible(p, t.known, t.root, at)
    requires t' == t.(mapped := t.mapped[at := |c.nodes|], origin := t.origin[|c.nodes| := at])
    requires c' == Appended(c, p.nodes[at].kind, p.nodes[at].key, p.nodes[at].result, deps)
    requires GraphExtends(c, c') && NodeOk(c', |c.nodes|) && Deps(c', |c.nodes|) == deps
    requires SameAnswers(p, Deps(p, at), c, deps) && forall k :: 0 <= k < |deps| ==> Deps(p, at)[k] in t.mapped
    ensures OriginOk(p, t', c')
  {
    NewCopy(p, t, t', c, c', at, deps);
    OriginStays(p, t, t', c, c');
  }

  /** What was known stays, and the new query is found among the new nodes. */
  lemma CopiedLookup(t: Replay, c: Graph, lookup: map<Query, nat>, q: Query)
    requires GraphExtends(t.start, c) && q !in lookup
    requires KnownKept(t, lookup)
    ensures KnownKept(t, lookup[q := |c.nodes|])
  {
  }

  lemma DepsAnswered(p: Graph, t: Replay, c: Graph, lookup: map<Query, nat>, at: nat, deps: seq<nat>)
    requires MappedOk(p, t.mapped, c, lookup) && at < |p.nodes| && NodeOk(p, at) && |deps| == |Deps(p, at)|
    requires forall k :: 0 <= k < |deps| ==> Deps(p, at)[k] in t.mapped && deps[k] == t.mapped[Deps(p, at)[k]]
    ensures SameAnswers(p, Deps(p, at), c, deps) && forall k :: 0 <= k < |deps| ==> deps[k] < |c.nodes|
  {
    forall k | 0 <= k < |deps| ensures SameAnswer(p, Deps(p, at)[k], c, deps[k]) { }
  }

  lemma OriginStays(p: Graph, t: Replay, t': Replay, c: Graph, c': Graph)
    requires OriginOk(p, t, c) && GraphExtends(c, c') && |c'.nodes| == |c.nodes| + 1
    requires t'.root == t.root && t'.known == t.known && t'.start == t.start && forall x | x in t.mapped ::
      x in t'.mapped
    requires t'.origin.Keys == t.origin.Keys + {|c.nodes|} && forall j | j in t.origin && j < |c.nodes| ::
      t'.origin[j] == t.origin[j]
    requires CopyOf(p, t', c', t'.origin[|c.nodes|], |c.nodes|)
    ensures OriginOk(p, t', c')
  {
    forall j | |t.start.nodes| <= j < |c.nodes| ensures j in t'.origin && CopyOf(p, t', c', t'.origin[j], j) {
      CopyStays(p, t, t', c, c', t.origin[j], j);
    }
  }

  lemma NewCopy(p: Graph, t: Replay, t': Replay, c: Graph, c': Graph, at: nat, deps: seq<nat>)
    requires at < |p.nodes| && NodeOk(p, at) && QueryOf(p, at) !in t.known && Visible(p, t.known, t.root, at)
    requires t'.root == t.root && t'.known == t.known && forall i | i in t.mapped :: i in t'.mapped
    requires GraphExtends(c, c') && |c.nodes| < |c'.nodes| && NodeOk(c', |c.nodes|) && Deps(c', |c.nodes|) == deps
    requires SameAnswer(p, at, c', |c.nodes|) && SameAnswers(p, Deps(p, at), c, deps)
    requires forall k :: 0 <= k < |deps| ==> Deps(p, at)[k] in t.mapped
    ensures CopyOf(p, t', c', at, |c.nodes|)
  {
    forall k | 0 <= k < |deps| ensures SameAnswer(p, Deps(p, at)[k], c', deps[k]) {
      assert SameAnswer(p, Deps(p, at)[k], c, deps[k]);
    }
  }

  lemma MappedStays(p: Graph, mapped: map<nat, nat>, c: Graph, lookup: map<Query, nat>, at: nat, c': Graph)
    requires MappedOk(p, mapped, c, lookup) && at < |p.nodes| && QueryOf(p, at) !in lookup && GraphExtends(c, c')
    requires SameAnswer(p, at, c', |c.nodes|)
    ensures MappedOk(p, mapped[at := |c.nodes|], c', lookup[QueryOf(p, at) := |c.nodes|])
  {
    forall i | i in mapped ensures SameAnswer(p, i, c', mapped[i]) && QueryOf(p, i) != QueryOf(p, at) {
      assert SameAnswer(p, i, c, mapped[i]);
    }
  }

  lemma CopyStays(p: Graph, t: Replay, t': Replay, c: Graph, c': Graph, i: nat, j: nat)
    requires CopyOf(p, t, c, i, j) && GraphExtends(c, c') && t'.root == t.root && t'.known == t.known
    requires forall x | x in t.mapped :: x in t'.mapped
    ensures CopyOf(p, t', c', i, j)
  {
    ExtendedNodes(c, c', j);
    forall k | 0 <= k < |Deps(p, i)| ensures SameAnswer(p, Deps(p, i)[k], c', Deps(c', j)[k]) {
      assert SameAnswer(p, Deps(p, i)[k], c, Deps(c, j)[k]);
    }
  }

  /** The counterparts of mapped nodes. */
  function Counterparts(ids: seq<nat>, mapped: map<nat, nat>): (current: seq<nat>)
    requires forall k :: 0 <= k < |ids| ==> ids[k] in mapped
    ensures |current| == |ids| && forall k :: 0 <= k < |ids| ==> current[k] == mapped[ids[k]]
  {
    seq(|ids|, k requires 0 <= k < |ids| => mapped[ids[k]])
  }

  class QuerySession {
    const previous: Graph
    var previousLookup: map<Query, nat>
    var nodes: seq<StoredNode>
    var edges: seq<nat>
    var currentLookup: map<Query, nat>
    var executed: nat
    var green: nat
    var red: nat

    function Current(): Graph
      reads this`nodes, this`edges
    {
      Graph(nodes, edges)
    }

    ghost predicate Valid()
      reads `previousLookup, `nodes, `edges, `currentLookup
    {
      && GraphOk(previous) && LookupOk(previous, previousLookup)
      && GraphOk(Current()) && LookupOk(Current(), currentLookup)
    }

    /** Open the session another one published; a query recorded twice is found at its last node. */
    constructor (loaded: Graph)
      requires GraphOk(loaded)
      ensures Valid() && previous == loaded && Current() == Graph([], []) && executed == green == red == 0
      ensures forall i, j :: 0 <= i < j < |previous.nodes| && QueryOf(previous, i) == QueryOf(previous, j) ==>
        previousLookup[QueryOf(previous, i)] >= j
    {
      previous := loaded;
      nodes, edges, currentLookup := [], [], map[];
      executed, green, red := 0, 0, 0;
      var lookup: map<Query, nat> := map[];
      for i := 0 to |loaded.nodes|
        invariant forall q | q in lookup :: lookup[q] < i && QueryOf(loaded, lookup[q]) == q
        invariant forall k :: 0 <= k < i ==> QueryOf(loaded, k) in lookup && lookup[QueryOf(loaded, k)] >= k
      {
        lookup := lookup[Query(loaded.nodes[i].kind, loaded.nodes[i].key) := i];
      }
      previousLookup := lookup;
    }

    method Append(kind: DepKind, key: Fingerprint, result: Fingerprint, dependencies: seq<nat>) returns (index: nat)
      requires Valid() && forall k :: 0 <= k < |dependencies| ==> dependencies[k] < |nodes|
      modifies this`nodes, this`edges, this`currentLookup
      ensures Valid() && index == |old(nodes)|
      ensures Current() == Appended(old(Current()), kind, key, result, dependencies)
      ensures currentLookup == old(currentLookup)[Query(kind, key) := index]
    {
      ghost var before := Current();
      var edgeStart := |edges|;
      edges := edges + dependencies;
      index := |nodes|;
      nodes := nodes + [StoredNode(kind, key, result, edgeStart, |dependencies|)];
      currentLookup := currentLookup[Query(kind, key) := index];
      AppendedOk(before, kind, key, result, dependencies);
      assert forall i :: 0 <= i < |before.nodes| ==> QueryOf(Current(), i) == QueryOf(before, i);
    }

    /** The previous session recorded the query with exactly these answers read. */
    ghost predicate Reusable(kind: DepKind, key: Fingerprint, dependencies: seq<nat>)
      requires Valid()
      reads `previousLookup, `nodes, `edges, `currentLookup
    {
      Query(kind, key) in previousLookup &&
      (assert NodeOk(previous, previousLookup[Query(kind, key)]);
       SameAnswers(previous, Deps(previous, previousLookup[Query(kind, key)]), Current(), dependencies))
    }

    /** Reuse a recorded answer whose dependencies all answer as before; otherwise change nothing. */
    method TryMarkGreen(kind: DepKind, key: Fingerprint, dependencies: seq<nat>) returns (r: Option<(nat, Fingerprint)>)
      requires Valid() && forall k :: 0 <= k < |dependencies| ==> dependencies[k] < |nodes|
      modifies this`nodes, this`edges, this`currentLookup, this`green
      ensures Valid() && (r.Some? <==> old(Reusable(kind, key, dependencies)))
      ensures r.None? ==> Current() == old(Current()) && currentLookup == old(currentLookup) && green == old(green)
      ensures r.Some? ==>
        r.value.1 == previous.nodes[previousLookup[Query(kind, key)]].result && green == old(green) + 1 &&
        Current() == Appended(old(Current()), kind, key, r.value.1, dependencies) &&
        currentLookup == old(currentLookup)[Query(kind, key) := r.value.0] && r.value.0 == |old(nodes)|
    {
      if Query(kind, key) !in previousLookup {
        return None;
      }
      var at := previousLookup[Query(kind, key)];
      assert NodeOk(previous, at);
      var node := previous.nodes[at];
      if node.edgeCount != |dependencies| {
        return None;
      }
      for k := 0 to |dependencies|
        invariant forall j :: 0 <= j < k ==> SameAnswer(previous, Deps(previous, at)[j], Current(), dependencies[j])
      {
        assert previous.edges[node.edgeStart + k] == Deps(previous, at)[k];
        var before := previous.nodes[previous.edges[node.edgeStart + k]];
        var now := nodes[dependencies[k]];
        if before.kind != now.kind || before.key != now.key || before.result != now.result {
          assert !SameAnswer(previous, Deps(previous, at)[k], Current(), dependencies[k]);
          return None;
        }
      }
      var index := Append(kind, key, node.result, dependencies);
      green := green + 1;
      r := Some((index, node.result));
    }

    /** Record an executed query, counted green or red against the previous session. */
    method AppendExecuted(kind: DepKind, key: Fingerprint, result: Fingerprint, dependencies: seq<nat>)
      returns (index: nat)
      requires Valid() && forall k :: 0 <= k < |dependencies| ==> dependencies[k] < |nodes|
      modifies this
      ensures Valid() && index == |old(nodes)| && previousLookup == old(previousLookup)
      ensures Current() == Appended(old(Current()), kind, key, result, dependencies)
      ensures currentLookup == old(currentLookup)[Query(kind, key) := index]
      ensures executed == old(executed) + 1
      ensures green + red == old(green + red) + if Query(kind, key) in previousLookup then 1 else 0
      ensures green == old(green) + if Query(kind, key) in previousLookup &&
        previous.nodes[previousLookup[Query(kind, key)]].result == result then 1 else 0
    {
      executed := executed + 1;
      if Query(kind, key) in previousLookup {
        if previous.nodes[previousLookup[Query(kind, key)]].result == result {
          green := green + 1;
        } else {
          red := red + 1;
        }
      }
      index := Append(kind, key, result, dependencies);
    }

    /** Reuse the previous answer or record the given one. */
    method SemanticQuery(kind: DepKind, key: Fingerprint, result: Fingerprint, dependencies: seq<nat>,
        executeMissing: bool)
      returns (r: Option<nat>)
      requires Valid() && forall k :: 0 <= k < |dependencies| ==> dependencies[k] < |nodes|
      modifies this
      ensures Valid() && previousLookup == old(previousLookup)
      ensures r.None? ==> !executeMissing && !old(Reusable(kind, key, dependencies)) && Current() == old(Current())
      ensures r.Some? ==> r.value == |old(nodes)| && Current() == Appended(old(Current()), kind, key,
        if old(Reusable(kind, key, dependencies)) then previous.nodes[previousLookup[Query(kind, key)]].result
          else result, dependencies)
    {
      var reused := TryMarkGreen(kind, key, dependencies);
      if reused.Some? {
        return Some(reused.value.0);
      }
      if !executeMissing {
        return None;
      }
      var index := AppendExecuted(kind, key, result, dependencies);
      return Some(index);
    }

    /** Replay a recorded query and everything it read, reusing what this session already has.
        The worklist holds a node twice: on the way in, and, above its dependencies, on the way out. */
    method TryReplayGreen(kind: DepKind, key: Fingerprint) returns (r: Option<Fingerprint>, ghost trace: Replay)
      requires Valid()
      modifies this`nodes, this`edges, this`currentLookup, this`green
      ensures Valid() && green - old(green) == |nodes| - |old(nodes)| && previousLookup == old(previousLookup)
      ensures Query(kind, key) !in previousLookup ==>
        r.None? && Current() == old(Current()) && currentLookup == old(currentLookup)
      ensures Query(kind, key) in previousLookup ==>
        trace.root == previousLookup[Query(kind, key)]
        && trace.start == old(Current()) && trace.known == old(currentLookup)
        && ReplayOk(previous, trace, Current(), currentLookup)
        && if r.Some? then r.value == previous.nodes[trace.root].result && trace.root in trace.mapped
           else ReplayBlocked(previous, trace, Current(), currentLookup)
    {
      if Query(kind, key) !in previousLookup {
        return None, Replay(0, Current(), currentLookup, map[], map[]);
      }
      var root := previousLookup[Query(kind, key)];
      var mapped: map<nat, nat> := map[];
      var stack: seq<(nat, bool)> := [(root, false)];
      trace := Replay(root, Current(), currentLookup, map[], map[]);
      ReplayBegins(previous, root, Current(), currentLookup);
      while stack != []
        invariant Valid() && green - old(green) == |nodes| - |old(nodes)|
        invariant trace.root == root && trace.start == old(Current()) && trace.known == old(currentLookup)
        invariant trace.mapped == mapped
        invariant ReplayOk(previous, trace, Current(), currentLookup) && StackOk(previous, trace, stack)
        decreases StackWeight(previous, stack)
      {
        var (at, exiting) := stack[|stack| - 1];
        ghost var before := stack;
        stack := stack[..|stack| - 1];
        assert before == stack + [(at, exiting)];
        StackWeightPush(previous, stack, (at, exiting));
        var green';
        green', mapped, stack, trace := ReplayTop(at, exiting, mapped, stack, trace);
        if !green' {
          return None, trace;
        }
      }
      return Some(previous.nodes[root].result), trace;
    }

    /** Work on the top of the worklist: skip it, reuse its counterpart, push what it reads, or
        copy it. A counterpart with another result stops the replay. */
    method ReplayTop(at: nat, exiting: bool, mapped: map<nat, nat>, stack: seq<(nat, bool)>, ghost trace: Replay)
      returns (ok: bool, mapped': map<nat, nat>, stack': seq<(nat, bool)>, ghost trace': Replay)
      requires Valid() && trace.mapped == mapped
      requires ReplayOk(previous, trace, Current(), currentLookup) && StackOk(previous, trace, stack + [(at, exiting)])
      modifies this`nodes, this`edges, this`currentLookup, this`green
      ensures Valid() && green - old(green) == |nodes| - |old(nodes)|
      ensures trace'.root == trace.root && trace'.start == trace.start && trace'.known == trace.known
      ensures trace'.mapped == mapped'
      ensures ReplayOk(previous, trace', Current(), currentLookup)
      ensures if ok then StackOk(previous, trace', stack')
        else ReplayBlocked(previous, trace', Current(), currentLookup)
      ensures ok ==> StackWeight(previous, stack') < StackWeight(previous, stack) + EntryWeight(previous, (at, exiting))
    {
      TopOfStack(previous, trace, stack, (at, exiting));
      mapped', stack', trace' := mapped, stack, trace;
      if at in mapped {
        PopMapped(previous, trace, trace, stack, (at, exiting));
        return true, mapped', stack', trace';
      }
      var node := previous.nodes[at];
      if Query(node.kind, node.key) in currentLookup {
        var current := currentLookup[Query(node.kind, node.key)];
        if nodes[current].result != node.result {
          return false, mapped', stack', trace';
        }
        ReuseOk(previous, trace, Current(), currentLookup, at);
        mapped' := mapped[at := current];
        trace' := trace.(mapped := mapped');
        PopMapped(previous, trace, trace', stack, (at, exiting));
        return true, mapped', stack', trace';
      }
      if !exiting {
        stack' := Expand(at, mapped, stack, trace);
        return true, mapped', stack', trace';
      }
      var index;
      index, trace' := CopyPrevious(at, mapped, trace);
      mapped' := mapped[at := index];
      PopMapped(previous, trace, trace', stack, (at, exiting));
      return true, mapped', stack', trace';
    }

    /** Push a node on its way out, and what it reads above it. */
    method Expand(at: nat, mapped: map<nat, nat>, stack: seq<(nat, bool)>, ghost trace: Replay)
      returns (stack': seq<(nat, bool)>)
      requires Valid() && trace.mapped == mapped && StackOk(previous, trace, stack + [(at, false)])
      requires at < |previous.nodes| && NodeOk(previous, at) && QueryOf(previous, at) !in trace.known
      ensures StackOk(previous, trace, stack')
      ensures StackWeight(previous, stack') < StackWeight(previous, stack) + EntryWeight(previous, (at, false))
    {
      var pushed := Unmapped(previous, Deps(previous, at), mapped, at);
      ExpandedOk(previous, trace, stack, at, pushed);
      StackWeightPush(previous, stack, (at, true));
      StackWeightAppend(previous, stack + [(at, true)], pushed);
      stack' := stack + [(at, true)] + pushed;
    }

    /** Record again a previous node whose dependencies all have counterparts. */
    method CopyPrevious(at: nat, mapped: map<nat, nat>, ghost trace: Replay) returns (index: nat, ghost trace': Replay)
      requires Valid() && ReplayOk(previous, trace, Current(), currentLookup) && trace.mapped == mapped
      requires at < |previous.nodes| && NodeOk(previous, at) && QueryOf(previous, at) !in currentLookup
      requires QueryOf(previous, at) !in trace.known && Visible(previous, trace.known, trace.root, at)
      requires forall k :: 0 <= k < |Deps(previous, at)| ==> Deps(previous, at)[k] in mapped
      modifies this`nodes, this`edges, this`currentLookup, this`green
      ensures Valid() && green == old(green) + 1 && |nodes| == |old(nodes)| + 1
      ensures trace' == trace.(mapped := mapped[at := index], origin := trace.origin[index := at])
      ensures ReplayOk(previous, trace', Current(), currentLookup)
    {
      var node, dependencies := previous.nodes[at], Deps(previous, at);
      var currentDependencies := Counterparts(dependencies, mapped);
      DepsAnswered(previous, trace, Current(), currentLookup, at, currentDependencies);
      ghost var c, lookup := Current(), currentLookup;
      index := Append(node.kind, node.key, node.result, currentDependencies);
      green := green + 1;
      trace' := trace.(mapped := mapped[at := index], origin := trace.origin[index := at]);
      CopyOk(previous, trace, trace', c, Current(), lookup, at, currentDependencies);
    }

    /** The entering entries for the dependencies that are not mapped yet, the first on top. */
    static method Unmapped(ghost p: Graph, dependencies: seq<nat>, mapped: map<nat, nat>, ghost bound: nat)
      returns (pushed: seq<(nat, bool)>)
      requires forall k :: 0 <= k < |dependencies| ==> dependencies[k] < bound
      ensures forall n :: 0 <= n < |pushed| ==> !pushed[n].1 && pushed[n].0 in dependencies
      ensures forall k :: 0 <= k < |dependencies| ==>
        dependencies[k] in mapped || exists n :: 0 <= n < |pushed| && pushed[n].0 == dependencies[k]
      ensures StackWeight(p, pushed) <= WeightSum(p, dependencies, bound)
    {
      pushed := [];
      assert dependencies[|dependencies|..] == [];
      for k := |dependencies| downto 0
        invariant forall n :: 0 <= n < |pushed| ==> !pushed[n].1 && pushed[n].0 in dependencies
        invariant forall j :: k <= j < |dependencies| ==>
          dependencies[j] in mapped || exists n :: 0 <= n < |pushed| && pushed[n].0 == dependencies[j]
        invariant StackWeight(p, pushed) <= WeightSum(p, dependencies[k..], bound)
      {
        assert dependencies[k..][1..] == dependencies[k + 1..];
        if dependencies[k] !in mapped {
          StackWeightPush(p, pushed, (dependencies[k], false));
          ghost var was := pushed;
          pushed := pushed + [(dependencies[k], false)];
          assert pushed[|was|].0 == dependencies[k] && forall n :: 0 <= n < |was| ==> pushed[n] == was[n];
        }
      }
      assert dependencies[0..] == dependencies;
    }
  }

  // ---- a replay is sound, and stops only for a change

  /** The answer a query has in a session, in whatever graph an honest run records it. */
  ghost predicate Answer(s: Semantics, q: Query, result: Fingerprint) {
    forall g, j :: Fresh(s, g) && 0 <= j < |g.nodes| && QueryOf(g, j) == q ==> g.nodes[j].result == result
  }

  /** Every source text the replay would read is already in the current session. */
  ghost predicate SourcesKnown(p: Graph, known: map<Query, nat>, root: nat) {
    forall i: nat | i < |p.nodes| && Visible(p, known, root, i) && p.nodes[i].kind == SourceText ::
      QueryOf(p, i) in known
  }

  /** Soundness of early cutoff: whether it succeeds or stops half way, a replay leaves the
      current graph fresh for the current source texts. */
  lemma ReplayKeepsFresh(s0: Semantics, s1: Semantics, p: Graph, t: Replay, c: Graph, lookup: map<Query, nat>)
    requires Pure(s0, s1, p) && Fresh(s1, t.start)
    requires ReplayOk(p, t, c, lookup) && SourcesKnown(p, t.known, t.root)
    ensures Fresh(s1, c)
  {
    forall j | 0 <= j < |c.nodes| ensures NodeOk(c, j) && Traced(s1, c, j) {
      if j < |t.start.nodes| {
        assert NodeOk(t.start, j) && Traced(s1, t.start, j);
        ExtendedNodes(t.start, c, j);
        RunsStable(s1, t.start, c, QueryOf(c, j), c.nodes[j].result, Deps(c, j));
      } else {
        var i := t.origin[j];
        assert CopyOf(p, t, c, i, j);
        ReusedAnswerRuns(s0, s1, p, c, i, Deps(c, j));
      }
    }
  }

  /** A successful replay returns the fingerprint a clean run over the current texts would record. */
  lemma ReplaySound(s0: Semantics, s1: Semantics, p: Graph, t: Replay, c: Graph, lookup: map<Query, nat>)
    requires Pure(s0, s1, p) && Fresh(s1, t.start)
    requires ReplayOk(p, t, c, lookup) && SourcesKnown(p, t.known, t.root) && t.root in t.mapped
    ensures Answer(s1, QueryOf(p, t.root), p.nodes[t.root].result)
  {
    ReplayKeepsFresh(s0, s1, p, t, c, lookup);
    forall g, j | Fresh(s1, g) && 0 <= j < |g.nodes| && QueryOf(g, j) == QueryOf(p, t.root)
      ensures g.nodes[j].result == p.nodes[t.root].result
    {
      FreshResultsAgree(s1, g, c, j, t.mapped[t.root]);
    }
  }

  /** Some node the replay reads was already answered differently in this session. */
  ghost predicate Changed(p: Graph, t: Replay) {
    exists i: nat :: i < |p.nodes| && Visible(p, t.known, t.root, i) && QueryOf(p, i) in t.known
      && t.known[QueryOf(p, i)] < |t.start.nodes| && t.start.nodes[t.known[QueryOf(p, i)]].result != p.nodes[i].result
  }

  /** Two previous nodes hold one query, with one result and the same queries read in the same order. */
  ghost predicate Alike(p: Graph, i: nat, j: nat)
    requires i < |p.nodes| && j < |p.nodes|
  {
    && NodeOk(p, i) && NodeOk(p, j) && p.nodes[i].result == p.nodes[j].result && |Deps(p, i)| == |Deps(p, j)|
    && forall k :: 0 <= k < |Deps(p, i)| ==> QueryOf(p, Deps(p, i)[k]) == QueryOf(p, Deps(p, j)[k])
  }

  /** A query that the replay of `root` reads twice was recorded alike both times. */
  ghost predicate Agreeing(p: Graph, known: map<Query, nat>, root: nat) {
    forall i: nat, j: nat | i < |p.nodes| && j < |p.nodes| && QueryOf(p, i) == QueryOf(p, j) ::
      Visible(p, known, root, i) && Visible(p, known, root, j) ==> Alike(p, i, j)
  }

  /** A visible node that the replay has given a counterpart. */
  ghost predicate Counterpart(p: Graph, t: Replay, q: Query, i: nat) {
    i in t.mapped && i < |p.nodes| && QueryOf(p, i) == q && Visible(p, t.known, t.root, i)
  }

  /** From a node whose query has a counterpart, everything visible below it has one too. */
  lemma {:induction false} CounterpartsBelow(p: Graph, t: Replay, c: Graph, lookup: map<Query, nat>, m: nat,
      m': nat, i: nat)
    requires Agreeing(p, t.known, t.root) && ReplayOk(p, t, c, lookup) && LookupOk(c, lookup)
    requires m < |p.nodes| && Visible(p, t.known, t.root, m) && Counterpart(p, t, QueryOf(p, m), m')
    requires Visible(p, t.known, m, i)
    ensures i < |p.nodes| && exists i' :: Counterpart(p, t, QueryOf(p, i), i')
    decreases m
  {
    if i == m {
      assert Counterpart(p, t, QueryOf(p, i), m');
    } else {
      var k :| 0 <= k < |Deps(p, m)| && Visible(p, t.known, Deps(p, m)[k], i);
      var j := t.mapped[m'];
      var o := t.origin[j];
      assert CopyOf(p, t, c, o, j);
      assert Alike(p, m, o);
      VisibleStep(p, t.known, t.root, m, k);
      VisibleStep(p, t.known, t.root, o, k);
      CounterpartsBelow(p, t, c, lookup, Deps(p, m)[k], Deps(p, o)[k], i);
    }
  }

  /** What a successful replay read has not changed. */
  lemma SuccessUnchanged(p: Graph, t: Replay, c: Graph, lookup: map<Query, nat>, i: nat)
    requires Agreeing(p, t.known, t.root) && ReplayOk(p, t, c, lookup) && LookupOk(c, lookup) && NodeOk(p, t.root)
    requires t.root in t.mapped && i < |p.nodes| && Visible(p, t.known, t.root, i) && QueryOf(p, i) in t.known
    ensures t.start.nodes[t.known[QueryOf(p, i)]].result == p.nodes[i].result
  {
    CounterpartsBelow(p, t, c, lookup, t.root, t.root, i);
    var i' :| Counterpart(p, t, QueryOf(p, i), i');
    assert Alike(p, i, i') && SameAnswer(p, i', c, t.mapped[i']);
  }

  /** Exactness: when repeated queries were recorded alike, a replay succeeds if and only if
      nothing it reads has changed. */
  lemma ReplayExact(p: Graph, t: Replay, c: Graph, lookup: map<Query, nat>, success: bool)
    requires Agreeing(p, t.known, t.root) && ReplayOk(p, t, c, lookup) && LookupOk(c, lookup) && NodeOk(p, t.root)
    requires if success then t.root in t.mapped else ReplayBlocked(p, t, c, lookup)
    ensures success <==> !Changed(p, t)
  {
    if success {
      forall i: nat | i < |p.nodes| && Visible(p, t.known, t.root, i) && QueryOf(p, i) in t.known
        ensures t.start.nodes[t.known[QueryOf(p, i)]].result == p.nodes[i].result
      {
        SuccessUnchanged(p, t, c, lookup, i);
      }
    } else {
      var i: nat :| i < |p.nodes| && Visible(p, t.known, t.root, i) && QueryOf(p, i) in lookup &&
        lookup[QueryOf(p, i)] < |c.nodes|
        && c.nodes[lookup[QueryOf(p, i)]].result != p.nodes[i].result;
      assert QueryOf(p, i) in t.known by {
        if QueryOf(p, i) !in t.known {
          CopyIsAlike(p, t, c, lookup, i);
        }
      }
    }
  }

  lemma CopyIsAlike(p: Graph, t: Replay, c: Graph, lookup: map<Query, nat>, i: nat)
    requires Agreeing(p, t.known, t.root) && ReplayOk(p, t, c, lookup) && LookupOk(c, lookup)
    requires i < |p.nodes| && Visible(p, t.known, t.root, i) && QueryOf(p, i) in lookup && QueryOf(p, i) !in t.known
    ensures c.nodes[lookup[QueryOf(p, i)]].result == p.nodes[i].result
  {
    var j := lookup[QueryOf(p, i)];
    assert CopyOf(p, t, c, t.origin[j], j);
    assert Alike(p, i, t.origin[j]);
  }

  /** When a query is reusable, reusing it records what executing it honestly would record. */
  lemma ReuseEqualsExecution(s0: Semantics, s1: Semantics, p: Graph, c: Graph, i: nat, result: Fingerprint,
      deps: seq<nat>)
    requires Pure(s0, s1, p) && i < |p.nodes| && p.nodes[i].kind != SourceText && NodeOk(p, i)
    requires SameAnswers(p, Deps(p, i), c, deps) && Runs(s1, c, QueryOf(p, i), result, deps)
    ensures p.nodes[i].result == result
  {
    ReusedAnswerRuns(s0, s1, p, c, i, deps);
  }

  // ---- checking an entry again

  /** One module of the bundle: its text and the fingerprint of its tokens. */
  datatype Module = Module(sourceKey: Fingerprint, parseKey: Fingerprint, text: Fingerprint, parsed: Fingerprint)

  /** The loader and the tokenizer report what the session's semantics says. */
  ghost predicate Honest(s: Semantics, m: Module) {
    && m.text == s.input(m.sourceKey)
    && s.next(Query(ParseModule, m.parseKey), []) == Read(Query(SourceText, m.sourceKey))
    && s.next(Query(ParseModule, m.parseKey), [m.text]) == Done(m.parsed)
  }

  lemma ParseRuns(s: Semantics, c: Graph, m: Module, source: nat)
    requires Honest(s, m) && source < |c.nodes| && QueryOf(c, source) == Query(SourceText, m.sourceKey)
    requires c.nodes[source].result == m.text
    ensures Runs(s, c, Query(ParseModule, m.parseKey), m.parsed, [source])
  {
    assert Results(c, [source]) == [m.text] && Results(c, [source])[..0] == [];
  }

  /** Record the parse of a module above its text, reusing it when the text is unchanged. */
  method QueryParse(session: QuerySession, ghost s0: Semantics, ghost s1: Semantics, m: Module, source: nat)
    requires session.Valid() && Pure(s0, s1, session.previous) && Fresh(s1, session.Current()) && Honest(s1, m)
    requires source < |session.nodes| && session.nodes[source].kind == SourceText
    requires session.nodes[source].key == m.sourceKey && session.nodes[source].result == m.text
    modifies session
    ensures session.Valid() && session.previousLookup == old(session.previousLookup)
    ensures Fresh(s1, session.Current())
    ensures session.currentLookup.Keys == old(session.currentLookup.Keys) + {Query(ParseModule, m.parseKey)}
  {
    ghost var c := session.Current();
    ParseRuns(s1, c, m, source);
    AppendedFresh(s1, c, ParseModule, m.parseKey, m.parsed, [source]);
    var reused := session.TryMarkGreen(ParseModule, m.parseKey, [source]);
    if reused.Some? {
      ghost var i := session.previousLookup[Query(ParseModule, m.parseKey)];
      assert NodeOk(session.previous, i);
      ReuseEqualsExecution(s0, s1, session.previous, c, i, m.parsed, [source]);
    } else {
      var parse := session.AppendExecuted(ParseModule, m.parseKey, m.parsed, [source]);
    }
  }

  /** Record the text of a module and its parse. */
  method QueryModule(session: QuerySession, ghost s0: Semantics, ghost s1: Semantics, m: Module)
    requires session.Valid() && Pure(s0, s1, session.previous) && Fresh(s1, session.Current()) && Honest(s1, m)
    modifies session
    ensures session.Valid() && session.previousLookup == old(session.previousLookup)
    ensures Fresh(s1, session.Current())
    ensures session.currentLookup.Keys == old(session.currentLookup.Keys) + {Query(SourceText, m.sourceKey),
      Query(ParseModule, m.parseKey)}
  {
    AppendedFresh(s1, session.Current(), SourceText, m.sourceKey, m.text, []);
    var source := session.Append(SourceText, m.sourceKey, m.text, []);
    QueryParse(session, s0, s1, m, source);
  }

  /** Every source text recorded under the previous check belongs to one of the modules. */
  ghost predicate SourcesQueried(p: Graph, root: nat, modules: seq<Module>) {
    forall i: nat | i < |p.nodes| && Visible(p, map[], root, i) && p.nodes[i].kind == SourceText ::
      exists k :: 0 <= k < |modules| && modules[k].sourceKey == p.nodes[i].key
  }

  /** Query the modules the previous check read, then try to replay the check.
      A fingerprint it returns is the answer a clean check of the current texts would give. */
  method CheckEntryAgain(session: QuerySession, ghost s0: Semantics, ghost s1: Semantics, modules: seq<Module>,
      checkKey: Fingerprint)
    returns (r: Option<Fingerprint>)
    requires session.Valid() && Pure(s0, s1, session.previous) && Fresh(s1, session.Current())
    requires forall k :: 0 <= k < |modules| ==> Honest(s1, modules[k])
    requires Query(CheckEntry, checkKey) in session.previousLookup ==>
      SourcesQueried(session.previous, session.previousLookup[Query(CheckEntry, checkKey)], modules)
    modifies session
    ensures session.Valid() && Fresh(s1, session.Current())
    ensures r.Some? ==> Answer(s1, Query(CheckEntry, checkKey), r.value)
  {
    for k := 0 to |modules|
      invariant session.Valid() && session.previousLookup == old(session.previousLookup)
      invariant Fresh(s1, session.Current())
      invariant forall j :: 0 <= j < k ==> Query(SourceText, modules[j].sourceKey) in session.currentLookup
    {
      if Query(SourceText, modules[k].sourceKey) !in session.currentLookup {
        QueryModule(session, s0, s1, modules[k]);
      }
    }
    ghost var trace;
    r, trace := session.TryReplayGreen(CheckEntry, checkKey);
    if Query(CheckEntry, checkKey) in session.previousLookup {
      forall i: nat | i < |session.previous.nodes| && Visible(session.previous, trace.known, trace.root,
        i) && session.previous.nodes[i].kind == SourceText
        ensures QueryOf(session.previous, i) in trace.known
      {
        VisibleUnderLess(session.previous, trace.known, trace.root, i);
      }
      ReplayKeepsFresh(s0, s1, session.previous, trace, session.Current(), session.currentLookup);
      if r.Some? {
        ReplaySound(s0, s1, session.previous, trace, session.Current(), session.currentLookup);
      }
    }
  }

  /** Knowing less in advance, a replay reads at least as much. */
  lemma {:induction false} VisibleUnderLess(p: Graph, known: map<Query, nat>, root: nat, i: nat)
    requires Visible(p, known, root, i)
    ensures Visible(p, map[], root, i)
    decreases root
  {
    if i != root {
      var k :| 0 <= k < |Deps(p, root)| && Visible(p, known, Deps(p, root)[k], i);
      VisibleUnderLess(p, known, Deps(p, root)[k], i);
    }
  }
}
