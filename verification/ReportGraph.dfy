/** The graph of one report: the queries a check records about it, in order, above the parses of
    its modules, and what holds of every recorded result whatever the session it was computed in. */
module ReportGraph {
  import opened Common
  import opened Incremental
  import opened CheckSession

  // ---- the queries of a report

  function SourceQuery(m: nat): Query { Query(SourceText, Value(m)) }

  function ParseQuery(m: nat): Query { Query(ParseModule, Value(m)) }

  function IndexQuery(m: nat): Query { Query(IndexModule, Value(m)) }

  function Identity(d: Definition): Fingerprint { Parts([Value(d.inModule), Value(d.name)]) }

  /** The fingerprint of the whole source graph; it covers every fact about its nodes. */
  function Hir(d: Definition): Fingerprint {
    Parts([d.nodes, d.resolutions, d.types, d.availability, d.roles])
  }

  /** A definition in one state of its source. */
  function Revision(d: Definition): Fingerprint { Parts([Identity(d), Hir(d)]) }

  /** The six queries about one definition, each reading the one before it. */
  function StageQuery(d: Definition, stage: nat): Query
    requires stage < 6
  {
    match stage
    case 0 => Query(DefinitionHeader, Identity(d))
    case 1 => Query(LowerSourceHir, Revision(d))
    case 2 => Query(ResolveDefinition, Revision(d))
    case 3 => Query(InferTypes, Revision(d))
    case 4 => Query(InferAvailability, Revision(d))
    case 5 => Query(AnalyzeDependencyRoles, Revision(d))
  }

  function StageResult(d: Definition, stage: nat): Fingerprint
    requires stage < 6
  {
    match stage
    case 0 => d.signature
    case 1 => Hir(d)
    case 2 => d.resolutions
    case 3 => Parts([d.signature, d.types])
    case 4 => d.availability
    case 5 => d.roles
  }

  /** A new entry in a list sorted by name. */
  function Insert(d: Definition, sorted: seq<Definition>): seq<Definition> {
    if sorted == [] || d.name < sorted[0].name then [d] + sorted else [sorted[0]] + Insert(d, sorted[1..])
  }

  /** The reachable definitions of a module, sorted by name. */
  function InModule(definitions: seq<Definition>, m: nat): seq<Definition> {
    if definitions == [] then []
    else
      var rest := InModule(definitions[..|definitions| - 1], m);
      if definitions[|definitions| - 1].inModule == m then Insert(definitions[|definitions| - 1], rest) else rest
  }

  function Headers(sorted: seq<Definition>): Fingerprint {
    Parts(seq(|sorted|, k requires 0 <= k < |sorted| => Parts([Value(sorted[k].name), sorted[k].signature])))
  }

  function Reached(definitions: seq<Definition>): Fingerprint {
    Parts(seq(|definitions|, k requires 0 <= k < |definitions| => Identity(definitions[k])))
  }

  /** The fingerprint of a whole report. */
  function ReportResult(r: Report): Fingerprint {
    Parts([r.entry, Parts(seq(|r.definitions|, k requires 0 <= k < |r.definitions| =>
        Parts([Revision(r.definitions[k]), r.definitions[k].signature, r.definitions[k].resolutions,
          r.definitions[k].types, r.definitions[k].availability, r.definitions[k].roles]))),
      r.diagnostics, Parts(seq(|r.modules|, k requires 0 <= k < |r.modules| => Value(r.modules[k])))])
  }

  // ---- what a recorded node keeps

  /** A query and its result, as a query above them sees them. */
  datatype Answer = Answer(query: Query, result: Fingerprint)

  function AnswerOf(g: Graph, i: nat): Answer
    requires i < |g.nodes|
  {
    Answer(QueryOf(g, i), g.nodes[i].result)
  }

  function Answers(g: Graph, ids: seq<nat>): (answers: seq<Answer>)
    requires forall k :: 0 <= k < |ids| ==> ids[k] < |g.nodes|
    ensures |answers| == |ids| && forall k :: 0 <= k < |ids| ==> answers[k] == AnswerOf(g, ids[k])
  {
    seq(|ids|, k requires 0 <= k < |ids| => AnswerOf(g, ids[k]))
  }

  predicate IsPair(key: Fingerprint) {
    key.Parts? && |key.parts| == 2
  }

  /** The key of a definition in one state: its identity and its source graph. */
  predicate IsRevision(key: Fingerprint) {
    IsPair(key) && key.parts[1].Parts? && |key.parts[1].parts| == 5
  }

  /** One of the parts of the source graph of a revision. */
  function Fact(key: Fingerprint, k: nat): Fingerprint
    requires IsRevision(key) && k < 5
  {
    key.parts[1].parts[k]
  }

  /** The only query read. */
  predicate ReadsOne(below: seq<Answer>, kind: DepKind, key: Fingerprint) {
    |below| == 1 && below[0].query == Query(kind, key)
  }

  /** The roles of some definitions, as recorded. */
  predicate AreRoles(below: seq<Answer>) {
    forall k :: 0 <= k < |below| ==>
      below[k].query.kind == AnalyzeDependencyRoles && IsRevision(below[k].query.key)
      && below[k].result == Fact(below[k].query.key, 4)
  }

  function Identities(below: seq<Answer>): Fingerprint
    requires AreRoles(below)
  {
    Parts(seq(|below|, k requires 0 <= k < |below| => below[k].query.key.parts[0]))
  }

  ghost predicate IsList(result: Fingerprint) {
    exists definitions: seq<Definition> :: result == Headers(definitions)
  }

  /** What any session keeps of a query: which queries it reads, and how far its key and what it
      reads decide the result. A signature is decided by neither. */
  ghost predicate KeptAs(q: Query, result: Fingerprint, below: seq<Answer>) {
    match q.kind
    case SourceText => true
    case ParseModule => true
    case IndexModule => ReadsOne(below, ParseModule, q.key) && IsList(result)
    case DefinitionHeader => IsPair(q.key) && ReadsOne(below, IndexModule, q.key.parts[0])
    case LowerSourceHir =>
      IsRevision(q.key) && ReadsOne(below, DefinitionHeader, q.key.parts[0]) && result == q.key.parts[1]
    case ResolveDefinition =>
      IsRevision(q.key) && ReadsOne(below, LowerSourceHir, q.key) && result == Fact(q.key, 1)
    case InferTypes =>
      IsRevision(q.key) && ReadsOne(below, ResolveDefinition, q.key) && IsPair(result)
      && result.parts[1] == Fact(q.key, 2)
    case InferAvailability =>
      IsRevision(q.key) && ReadsOne(below, InferTypes, q.key) && result == Fact(q.key, 3)
    case AnalyzeDependencyRoles =>
      IsRevision(q.key) && ReadsOne(below, InferAvailability, q.key) && result == Fact(q.key, 4)
    case ReachableDefinitions => AreRoles(below) && result == Identities(below)
    case CollectDiagnostics =>
      |below| > 0 && AreRoles(below[1..])
      && below[0] == Answer(Query(ReachableDefinitions, q.key), Identities(below[1..]))
    case CheckEntry => true
  }

  ghost predicate NodeKept(g: Graph, i: nat) {
    i < |g.nodes| && NodeOk(g, i) && KeptAs(QueryOf(g, i), g.nodes[i].result, Answers(g, Deps(g, i)))
  }

  /** Every node of the graph keeps it. */
  ghost predicate KeptOk(g: Graph) {
    forall i: nat | i < |g.nodes| :: NodeKept(g, i)
  }

  lemma SameAnswersAreEqual(g: Graph, ids: seq<nat>, h: Graph, js: seq<nat>)
    requires forall k :: 0 <= k < |ids| ==> ids[k] < |g.nodes|
    requires forall k :: 0 <= k < |js| ==> js[k] < |h.nodes|
    ensures SameAnswers(g, ids, h, js) <==> Answers(g, ids) == Answers(h, js)
  {
    if Answers(g, ids) == Answers(h, js) {
      forall k | 0 <= k < |ids| ensures SameAnswer(g, ids[k], h, js[k]) {
        assert Answers(g, ids)[k] == Answers(h, js)[k];
      }
    }
  }

  /** A node with the query, the result and the answers of a kept one is kept. */
  lemma CopyIsKept(p: Graph, i: nat, c: Graph, j: nat)
    requires NodeKept(p, i) && j < |c.nodes| && NodeOk(c, j)
    requires SameAnswer(p, i, c, j) && SameAnswers(p, Deps(p, i), c, Deps(c, j))
    ensures NodeKept(c, j)
  {
    SameAnswersAreEqual(p, Deps(p, i), c, Deps(c, j));
  }

  lemma ExtendedIsKept(g: Graph, h: Graph, i: nat)
    requires GraphExtends(g, h) && NodeKept(g, i)
    ensures NodeKept(h, i)
  {
    ExtendedNodes(g, h, i);
    CopyIsKept(g, i, h, i);
  }

  lemma KeptGrows(g: Graph, h: Graph)
    requires KeptOk(g) && GraphExtends(g, h)
    requires forall j: nat | |g.nodes| <= j < |h.nodes| :: NodeKept(h, j)
    ensures KeptOk(h)
  {
    forall i: nat | i < |h.nodes| ensures NodeKept(h, i) {
      if i < |g.nodes| {
        ExtendedIsKept(g, h, i);
      }
    }
  }

  /** Recording a text, a parse or a check keeps everything. */
  lemma PlainIsKept(g: Graph, kind: DepKind, key: Fingerprint, result: Fingerprint, deps: seq<nat>)
    requires KeptOk(g) && (kind == SourceText || kind == ParseModule || kind == CheckEntry)
    requires forall k :: 0 <= k < |deps| ==> deps[k] < |g.nodes|
    ensures KeptOk(Appended(g, kind, key, result, deps))
  {
    var h := Appended(g, kind, key, result, deps);
    assert GraphOk(g) by {
      forall i | 0 <= i < |g.nodes| ensures NodeOk(g, i) {
        assert NodeKept(g, i);
      }
    }
    AppendedOk(g, kind, key, result, deps);
    assert NodeKept(h, |g.nodes|);
    KeptGrows(g, h);
  }

  /** A replay copies kept nodes, so what it leaves behind is kept, also when it stops half way. */
  lemma ReplayIsKept(p: Graph, t: Replay, c: Graph, lookup: map<Query, nat>)
    requires KeptOk(p) && KeptOk(t.start) && ReplayOk(p, t, c, lookup)
    ensures KeptOk(c)
  {
    forall j: nat | |t.start.nodes| <= j < |c.nodes| ensures NodeKept(c, j) {
      assert CopyOf(p, t, c, t.origin[j], j);
      CopyIsKept(p, t.origin[j], c, j);
    }
    KeptGrows(t.start, c);
  }

  // ---- recorded nodes

  ghost predicate NodeIs(g: Graph, i: nat, q: Query, deps: seq<nat>) {
    i < |g.nodes| && NodeOk(g, i) && QueryOf(g, i) == q && Deps(g, i) == deps
  }

  /** More nodes, none of them the parse of a module. */
  ghost predicate Grows(g: Graph, h: Graph) {
    GraphExtends(g, h) && forall i :: |g.nodes| <= i < |h.nodes| ==> h.nodes[i].kind != ParseModule
  }

  lemma GrowsFurther(f: Graph, g: Graph, h: Graph)
    requires Grows(f, g) && Grows(g, h)
    ensures Grows(f, h)
  {
    forall i | |f.nodes| <= i < |h.nodes| ensures h.nodes[i].kind != ParseModule {
      if i < |g.nodes| {
        assert h.nodes[i] == g.nodes[i];
      }
    }
  }

  /** The session before: its graph and where it finds queries. */
  datatype Prior = Prior(graph: Graph, lookup: map<Query, nat>)

  ghost predicate PriorOk(prior: Prior) {
    GraphOk(prior.graph) && LookupOk(prior.graph, prior.lookup)
  }

  /** The session before recorded the query with these answers read. */
  ghost predicate Reusable(prior: Prior, g: Graph, q: Query, deps: seq<nat>) {
    PriorOk(prior) && q in prior.lookup && NodeOk(prior.graph, prior.lookup[q]) &&
    SameAnswers(prior.graph, Deps(prior.graph, prior.lookup[q]), g, deps)
  }

  /** Node `i` holds a query with what it read: its result is the prior one when the query could
      be reused, and the given one otherwise. */
  ghost predicate Recorded(prior: Prior, g: Graph, i: nat, q: Query, deps: seq<nat>, result: Fingerprint) {
    NodeIs(g, i, q, deps) && g.nodes[i].result == if Reusable(prior, g, q, deps)
      then prior.graph.nodes[prior.lookup[q]].result else result
  }

  lemma ReusableStays(prior: Prior, g: Graph, h: Graph, q: Query, deps: seq<nat>)
    requires GraphExtends(g, h) && forall k :: 0 <= k < |deps| ==> deps[k] < |g.nodes|
    ensures Reusable(prior, g, q, deps) <==> Reusable(prior, h, q, deps)
  {
    if PriorOk(prior) && q in prior.lookup && NodeOk(prior.graph, prior.lookup[q]) {
      var ids := Deps(prior.graph, prior.lookup[q]);
      if |ids| == |deps| {
        forall k | 0 <= k < |ids|
          ensures SameAnswer(prior.graph, ids[k], g, deps[k]) <==> SameAnswer(prior.graph, ids[k], h, deps[k])
        { }
      }
    }
  }

  lemma RecordedStays(prior: Prior, g: Graph, h: Graph, i: nat, q: Query, deps: seq<nat>, result: Fingerprint)
    requires GraphExtends(g, h) && Recorded(prior, g, i, q, deps, result)
    ensures Recorded(prior, h, i, q, deps, result)
  {
    ExtendedNodes(g, h, i);
    ReusableStays(prior, g, h, q, deps);
  }

  /** Record a query about the checked report, unless it can be reused. */
  method Record(session: QuerySession, q: Query, result: Fingerprint, deps: seq<nat>) returns (node: nat)
    requires session.Valid() && q.kind != ParseModule
    requires forall k :: 0 <= k < |deps| ==> deps[k] < |session.nodes|
    modifies session
    ensures session.Valid() && session.previousLookup == old(session.previousLookup)
    ensures Grows(old(session.Current()), session.Current())
    ensures node == |old(session.nodes)| && |session.nodes| == node + 1
    ensures Recorded(Prior(session.previous, session.previousLookup), session.Current(), node, q, deps, result)
  {
    ghost var before := session.Current();
    var r := session.SemanticQuery(q.kind, q.key, result, deps, true);
    node := r.value;
    AppendedOk(before, q.kind, q.key, session.nodes[node].result, deps);
    ReusableStays(Prior(session.previous, session.previousLookup), before, session.Current(), q, deps);
  }

  // ---- the graph of one report

  /** Where the queries of a report are: the parse of each module and, from node `first` on, the
      index of each module, the stages of each definition, and the two queries above all of them. */
  datatype Layout = Layout(parses: map<nat, nat>, first: nat, index: map<nat, nat>, chains: seq<seq<nat>>,
    reachable: nat, collect: nat)

  /** These nodes, one after the other, are the last before `end`. */
  ghost predicate EndsAt(ids: seq<nat>, end: nat) {
    forall k :: 0 <= k < |ids| ==> ids[k] + |ids| == end + k
  }

  lemma EndsGrow(ids: seq<nat>, end: nat)
    requires EndsAt(ids, end)
    ensures EndsAt(ids + [end], end + 1)
  {
  }

  /** The chains stand one after the other, from node `first` on. */
  ghost predicate InRows(chains: seq<seq<nat>>, first: nat) {
    forall k :: 0 <= k < |chains| ==> EndsAt(chains[k], first + 6 * k + 6)
  }

  /** The lists of the first `k` modules stand one after the other, from node `first` on. */
  ghost predicate InTurn(index: map<nat, nat>, modules: seq<nat>, k: nat, first: nat) {
    k <= |modules| && forall j :: 0 <= j < k ==> modules[j] in index && index[modules[j]] == first + j
  }

  /** The queries of the report stand in the order of the report. */
  ghost predicate InOrder(l: Layout, report: Report) {
    && InTurn(l.index, report.modules, |report.modules|, l.first)
    && InRows(l.chains, l.first + |report.modules|) && |l.chains| == |report.definitions|
    && l.reachable == l.first + |report.modules| + 6 * |report.definitions| && l.collect == l.reachable + 1
  }

  /** What stage `s` of a definition reads. */
  function Below(index: nat, chain: seq<nat>, s: nat): nat
    requires s <= |chain|
  {
    if s == 0 then index else chain[s - 1]
  }

  ghost predicate ChainOk(prior: Prior, g: Graph, index: nat, chain: seq<nat>, d: Definition) {
    |chain| <= 6 && forall s :: 0 <= s < |chain| ==>
      Recorded(prior, g, chain[s], StageQuery(d, s), [Below(index, chain, s)], StageResult(d, s))
  }

  lemma ChainStays(prior: Prior, g: Graph, h: Graph, index: nat, chain: seq<nat>, d: Definition)
    requires GraphExtends(g, h) && ChainOk(prior, g, index, chain, d)
    ensures ChainOk(prior, h, index, chain, d)
  {
    forall s | 0 <= s < |chain|
      ensures Recorded(prior, h, chain[s], StageQuery(d, s), [Below(index, chain, s)], StageResult(d, s))
    {
      RecordedStays(prior, g, h, chain[s], StageQuery(d, s), [Below(index, chain, s)], StageResult(d, s));
    }
  }

  lemma ChainGrows(prior: Prior, g: Graph, index: nat, chain: seq<nat>, node: nat, d: Definition)
    requires ChainOk(prior, g, index, chain, d) && |chain| < 6
    requires Recorded(prior, g, node, StageQuery(d, |chain|), [Below(index, chain, |chain|)], StageResult(d, |chain|))
    ensures ChainOk(prior, g, index, chain + [node], d)
  {
    var longer := chain + [node];
    forall s | 0 <= s < |longer|
      ensures Recorded(prior, g, longer[s], StageQuery(d, s), [Below(index, longer, s)], StageResult(d, s))
    {
      assert Below(index, longer, s) == Below(index, chain, s);
    }
  }

  /** Record the next stage of a definition, reading the stage before. */
  method RecordStage(session: QuerySession, d: Definition, below: nat, stage: nat, ghost index: nat,
      ghost chain: seq<nat>,
      ghost start: Graph)
    returns (node: nat, ghost longer: seq<nat>)
    requires session.Valid() && |chain| == stage < 6 && below == Below(index, chain, stage) < |session.nodes|
    requires EndsAt(chain, |session.nodes|)
    requires ChainOk(Prior(session.previous, session.previousLookup), session.Current(), index, chain, d)
    requires Grows(start, session.Current())
    modifies session
    ensures session.Valid() && session.previousLookup == old(session.previousLookup)
    ensures |longer| == stage + 1 && node == Below(index, longer, stage + 1) < |session.nodes|
    ensures EndsAt(longer, |session.nodes|) && |session.nodes| == |old(session.nodes)| + 1
    ensures ChainOk(Prior(session.previous, session.previousLookup), session.Current(), index, longer, d)
    ensures Grows(start, session.Current())
  {
    ghost var prior, before := Prior(session.previous, session.previousLookup), session.Current();
    node := Record(session, StageQuery(d, stage), StageResult(d, stage), [below]);
    longer := chain + [node];
    EndsGrow(chain, node);
    ChainStays(prior, before, session.Current(), index, chain, d);
    ChainGrows(prior, session.Current(), index, chain, node, d);
    GrowsFurther(start, before, session.Current());
  }

  /** Record the header, the source graph and the resolutions of a definition. */
  method RecordSource(session: QuerySession, d: Definition, index: nat, ghost start: Graph)
    returns (resolve: nat, ghost chain: seq<nat>)
    requires session.Valid() && index < |session.nodes| && Grows(start, session.Current())
    modifies session
    ensures session.Valid() && session.previousLookup == old(session.previousLookup)
    ensures |chain| == 3 && resolve == Below(index, chain, 3) < |session.nodes|
    ensures EndsAt(chain, |session.nodes|) && |session.nodes| == |old(session.nodes)| + 3
    ensures ChainOk(Prior(session.previous, session.previousLookup), session.Current(), index, chain, d)
    ensures Grows(start, session.Current())
  {
    var header, lower;
    chain := [];
    header, chain := RecordStage(session, d, index, 0, index, chain, start);
    lower, chain := RecordStage(session, d, header, 1, index, chain, start);
    resolve, chain := RecordStage(session, d, lower, 2, index, chain, start);
  }

  /** Record what is known about one definition. */
  method RecordDefinition(session: QuerySession, d: Definition, index: nat, ghost start: Graph)
    returns (roles: nat, ghost chain: seq<nat>)
    requires session.Valid() && index < |session.nodes| && Grows(start, session.Current())
    modifies session
    ensures session.Valid() && session.previousLookup == old(session.previousLookup)
    ensures |chain| == 6 && roles == Below(index, chain, 6) < |session.nodes|
    ensures EndsAt(chain, |session.nodes|) && |session.nodes| == |old(session.nodes)| + 6
    ensures ChainOk(Prior(session.previous, session.previousLookup), session.Current(), index, chain, d)
    ensures Grows(start, session.Current())
  {
    var resolve, types, availability;
    resolve, chain := RecordSource(session, d, index, start);
    types, chain := RecordStage(session, d, resolve, 3, index, chain, start);
    availability, chain := RecordStage(session, d, types, 4, index, chain, start);
    roles, chain := RecordStage(session, d, availability, 5, index, chain, start);
  }

  ghost predicate ParsesAt(g: Graph, parses: map<nat, nat>) {
    forall m | m in parses :: parses[m] < |g.nodes| && QueryOf(g, parses[m]) == ParseQuery(m)
  }

  /** The list recorded for each module. */
  function ListsOf(definitions: seq<Definition>): nat -> Fingerprint {
    (m: nat) => Headers(InModule(definitions, m))
  }

  ghost predicate IndexesOk(prior: Prior, g: Graph, parses: map<nat, nat>, index: map<nat, nat>,
      lists: nat -> Fingerprint) {
    forall m | m in index :: m in parses && Recorded(prior, g, index[m], IndexQuery(m), [parses[m]], lists(m))
  }

  lemma IndexesStay(prior: Prior, g: Graph, h: Graph, parses: map<nat, nat>, index: map<nat, nat>,
      lists: nat -> Fingerprint)
    requires GraphExtends(g, h) && IndexesOk(prior, g, parses, index, lists)
    ensures IndexesOk(prior, h, parses, index, lists)
  {
    forall m | m in index ensures Recorded(prior, h, index[m], IndexQuery(m), [parses[m]], lists(m)) {
      RecordedStays(prior, g, h, index[m], IndexQuery(m), [parses[m]], lists(m));
    }
  }

  /** The chains of the first definitions. */
  ghost predicate ChainsOk(prior: Prior, g: Graph, index: map<nat, nat>, chains: seq<seq<nat>>,
      definitions: seq<Definition>) {
    |chains| <= |definitions| && forall k :: 0 <= k < |chains| ==>
      definitions[k].inModule in index && |chains[k]| == 6 && ChainOk(prior, g, index[definitions[k].inModule],
        chains[k], definitions[k])
  }

  lemma ChainsStay(prior: Prior, g: Graph, h: Graph, index: map<nat, nat>, chains: seq<seq<nat>>,
      definitions: seq<Definition>)
    requires GraphExtends(g, h) && ChainsOk(prior, g, index, chains, definitions)
    ensures ChainsOk(prior, h, index, chains, definitions)
  {
    forall k | 0 <= k < |chains| ensures ChainOk(prior, h, index[definitions[k].inModule], chains[k], definitions[k]) {
      ChainStays(prior, g, h, index[definitions[k].inModule], chains[k], definitions[k]);
    }
  }

  /** The last stage of each definition. */
  function Heads(chains: seq<seq<nat>>): (heads: seq<nat>)
    requires forall k :: 0 <= k < |chains| ==> |chains[k]| == 6
  {
    seq(|chains|, k requires 0 <= k < |chains| => chains[k][5])
  }

  ghost predicate LayoutOk(prior: Prior, g: Graph, l: Layout, report: Report) {
    && ParsesAt(g, l.parses) && IndexesOk(prior, g, l.parses, l.index, ListsOf(report.definitions))
    && (forall m | m in report.modules :: m in l.index)
    && ChainsOk(prior, g, l.index, l.chains, report.definitions) && |l.chains| == |report.definitions|
    && Recorded(prior, g, l.reachable, Query(ReachableDefinitions, report.entry), Heads(l.chains),
      Reached(report.definitions))
    && Recorded(prior, g, l.collect, Query(CollectDiagnostics, report.entry), [l.reachable] + Heads(l.chains),
      report.diagnostics)
  }

  lemma TurnGrows(index: map<nat, nat>, modules: seq<nat>, k: nat, first: nat)
    requires InTurn(index, modules, k, first) && k < |modules|
    requires forall i, j :: 0 <= i < j < |modules| ==> modules[i] != modules[j]
    ensures InTurn(index[modules[k] := first + k], modules, k + 1, first)
  {
  }

  lemma InTurnIsIndexed(index: map<nat, nat>, modules: seq<nat>, first: nat)
    requires InTurn(index, modules, |modules|, first)
    ensures forall m | m in modules :: m in index
  {
  }

  /** Record the list of reachable definitions of one module. */
  method RecordIndex(session: QuerySession, definitions: seq<Definition>, m: nat, parses: map<nat, nat>,
      index: map<nat, nat>,
      ghost lists: nat -> Fingerprint, ghost start: Graph)
    returns (node: nat)
    requires session.Valid() && m in parses && parses[m] < |session.nodes| && Grows(start, session.Current())
    requires IndexesOk(Prior(session.previous, session.previousLookup), session.Current(), parses, index, lists)
    requires lists == ListsOf(definitions)
    modifies session
    ensures session.Valid() && session.previousLookup == old(session.previousLookup) && Grows(start, session.Current())
    ensures IndexesOk(Prior(session.previous, session.previousLookup), session.Current(), parses, index[m := node],
      lists)
    ensures node == |old(session.nodes)| && |session.nodes| == node + 1
  {
    ghost var before := session.Current();
    node := Record(session, IndexQuery(m), Headers(InModule(definitions, m)), [parses[m]]);
    IndexesStay(Prior(session.previous, session.previousLookup), before, session.Current(), parses, index, lists);
    GrowsFurther(start, before, session.Current());
  }

  /** Record the list of reachable definitions of every parsed module. */
  method RecordIndexes(session: QuerySession, report: Report, parses: map<nat, nat>, ghost lists: nat -> Fingerprint)
    returns (index: map<nat, nat>)
    requires session.Valid() && ParsesAt(session.Current(), parses) && ReportOk(report)
    requires lists == ListsOf(report.definitions) && forall m | m in report.modules :: m in parses
    modifies session
    ensures session.Valid() && session.previousLookup == old(session.previousLookup)
    ensures Grows(old(session.Current()), session.Current())
    ensures InTurn(index, report.modules, |report.modules|, |old(session.nodes)|)
    ensures |session.nodes| == |old(session.nodes)| + |report.modules|
    ensures IndexesOk(Prior(session.previous, session.previousLookup), session.Current(), parses, index, lists)
  {
    ghost var start := session.Current();
    index := map[];
    for k := 0 to |report.modules|
      invariant session.Valid() && session.previousLookup == old(session.previousLookup)
      invariant Grows(start, session.Current())
      invariant |session.nodes| == |start.nodes| + k && InTurn(index, report.modules, k, |start.nodes|)
      invariant IndexesOk(Prior(session.previous, session.previousLookup), session.Current(), parses, index, lists)
    {
      var m := report.modules[k];
      var node := RecordIndex(session, report.definitions, m, parses, index, lists, start);
      TurnGrows(index, report.modules, k, |start.nodes|);
      index := index[m := node];
    }
  }

  ghost predicate HeadsBelow(roles: seq<nat>, count: nat) {
    forall k :: 0 <= k < |roles| ==> roles[k] < count
  }

  ghost predicate Indexable(definitions: seq<Definition>, index: map<nat, nat>, count: nat) {
    forall k :: 0 <= k < |definitions| ==> definitions[k].inModule in index && index[definitions[k].inModule] < count
  }

  lemma ChainsGrow(prior: Prior, g: Graph, h: Graph, index: map<nat, nat>, chains: seq<seq<nat>>, chain: seq<nat>,
      roles: seq<nat>,
      definitions: seq<Definition>)
    requires GraphExtends(g, h) && ChainsOk(prior, g, index, chains, definitions) && |chains| < |definitions|
    requires definitions[|chains|].inModule in index && |chain| == 6
    requires ChainOk(prior, h, index[definitions[|chains|].inModule], chain, definitions[|chains|])
    requires roles == Heads(chains)
    ensures ChainsOk(prior, h, index, chains + [chain], definitions) && roles + [chain[5]] == Heads(chains + [chain])
  {
    ChainsStay(prior, g, h, index, chains, definitions);
  }

  /** Record everything about the next reachable definition. */
  method RecordNext(session: QuerySession, definitions: seq<Definition>, index: map<nat, nat>, roles: seq<nat>,
      ghost chains: seq<seq<nat>>, ghost start: Graph)
    returns (longer: seq<nat>, ghost chains': seq<seq<nat>>)
    requires session.Valid() && |chains| < |definitions| && Indexable(definitions, index, |session.nodes|)
    requires ChainsOk(Prior(session.previous, session.previousLookup), session.Current(), index, chains, definitions)
    requires roles == Heads(chains) && HeadsBelow(roles, |session.nodes|) && Grows(start, session.Current())
    requires InRows(chains, |start.nodes|) && |session.nodes| == |start.nodes| + 6 * |chains|
    modifies session
    ensures session.Valid() && session.previousLookup == old(session.previousLookup)
    ensures InRows(chains', |start.nodes|) && |session.nodes| == |start.nodes| + 6 * |chains'|
    ensures |chains'| == |chains| + 1 && Indexable(definitions, index, |session.nodes|)
    ensures ChainsOk(Prior(session.previous, session.previousLookup), session.Current(), index, chains', definitions)
    ensures longer == Heads(chains') && HeadsBelow(longer, |session.nodes|) && Grows(start, session.Current())
  {
    ghost var before := session.Current();
    var d := definitions[|roles|];
    var head;
    ghost var chain;
    head, chain := RecordDefinition(session, d, index[d.inModule], before);
    GrowsFurther(start, before, session.Current());
    ChainsGrow(Prior(session.previous, session.previousLookup), before, session.Current(), index, chains, chain,
      roles, definitions);
    longer, chains' := roles + [head], chains + [chain];
  }

  /** Record everything about the reachable definitions, in the order of the report. */
  method RecordDefinitions(session: QuerySession, definitions: seq<Definition>, index: map<nat, nat>)
    returns (roles: seq<nat>, ghost chains: seq<seq<nat>>)
    requires session.Valid() && Indexable(definitions, index, |session.nodes|)
    modifies session
    ensures session.Valid() && session.previousLookup == old(session.previousLookup)
    ensures Grows(old(session.Current()), session.Current()) && HeadsBelow(roles, |session.nodes|)
    ensures ChainsOk(Prior(session.previous, session.previousLookup), session.Current(), index, chains, definitions)
    ensures |chains| == |definitions| && roles == Heads(chains) && InRows(chains, |old(session.nodes)|)
    ensures |session.nodes| == |old(session.nodes)| + 6 * |definitions|
  {
    ghost var start := session.Current();
    roles, chains := [], [];
    for k := 0 to |definitions|
      invariant session.Valid() && session.previousLookup == old(session.previousLookup)
      invariant Grows(start, session.Current())
      invariant |chains| == k
      invariant ChainsOk(Prior(session.previous, session.previousLookup), session.Current(), index, chains, definitions)
      invariant roles == Heads(chains) && HeadsBelow(roles, |session.nodes|)
      invariant Indexable(definitions, index, |session.nodes|)
      invariant InRows(chains, |start.nodes|) && |session.nodes| == |start.nodes| + 6 * k
    {
      roles, chains := RecordNext(session, definitions, index, roles, chains, start);
    }
  }

  /** Record the two queries above all definitions. */
  method RecordTop(session: QuerySession, report: Report, roles: seq<nat>, ghost start: Graph)
    returns (reachable: nat, collect: nat)
    requires session.Valid() && HeadsBelow(roles, |session.nodes|) && Grows(start, session.Current())
    modifies session
    ensures session.Valid() && session.previousLookup == old(session.previousLookup)
    ensures Grows(old(session.Current()), session.Current()) && Grows(start, session.Current())
    ensures reachable == |old(session.nodes)| && collect == reachable + 1 == |session.nodes| - 1
    ensures var prior := Prior(session.previous, session.previousLookup);
      Recorded(prior, session.Current(), reachable, Query(ReachableDefinitions, report.entry), roles,
        Reached(report.definitions)) &&
      Recorded(prior, session.Current(), collect, Query(CollectDiagnostics, report.entry), [reachable] + roles,
        report.diagnostics)
  {
    ghost var g0 := session.Current();
    reachable := Record(session, Query(ReachableDefinitions, report.entry), Reached(report.definitions), roles);
    ghost var g1 := session.Current();
    collect := Record(session, Query(CollectDiagnostics, report.entry), report.diagnostics, [reachable] + roles);
    GrowsFurther(g0, g1, session.Current());
    GrowsFurther(start, g0, session.Current());
    RecordedStays(Prior(session.previous, session.previousLookup), g1, session.Current(), reachable,
      Query(ReachableDefinitions, report.entry), roles, Reached(report.definitions));
  }

  lemma IndexesAreIndexable(prior: Prior, g: Graph, parses: map<nat, nat>, index: map<nat, nat>,
      lists: nat -> Fingerprint, report: Report)
    requires IndexesOk(prior, g, parses, index, lists) && ReportOk(report) && forall m | m in report.modules ::
      m in index
    ensures Indexable(report.definitions, index, |g.nodes|)
  {
  }

  /** Record the whole report above the parses of its modules. */
  method SemanticGraph(session: QuerySession, report: Report, parses: map<nat, nat>)
    returns (collect: nat, ghost l: Layout)
    requires session.Valid() && ParsesAt(session.Current(),
      parses) && ReportOk(report) && forall m | m in report.modules :: m in parses
    modifies session
    ensures session.Valid() && session.previousLookup == old(session.previousLookup)
    ensures Grows(old(session.Current()), session.Current()) && l.parses == parses && l.collect == collect
    ensures LayoutOk(Prior(session.previous, session.previousLookup), session.Current(), l, report)
    ensures InOrder(l, report) && l.first == |old(session.nodes)| && |session.nodes| == collect + 1
  {
    ghost var start, lists := session.Current(), ListsOf(report.definitions);
    var index := RecordIndexes(session, report, parses, lists);
    ghost var g0 := session.Current();
    InTurnIsIndexed(index, report.modules, |start.nodes|);
    IndexesAreIndexable(Prior(session.previous, session.previousLookup), g0, parses, index, lists, report);
    var roles, reachable;
    ghost var chains;
    roles, chains := RecordDefinitions(session, report.definitions, index);
    ghost var g1 := session.Current();
    GrowsFurther(start, g0, g1);
    reachable, collect := RecordTop(session, report, roles, start);
    l := Layout(parses, |start.nodes|, index, chains, reachable, collect);
    GrowsFurther(g0, g1, session.Current());
    IndexesStay(Prior(session.previous, session.previousLookup), g0, session.Current(), parses, index, lists);
    ChainsStay(Prior(session.previous, session.previousLookup), g1, session.Current(), index, chains,
      report.definitions);
  }

  /** What is recorded for stage `s` of definition `d`. */
  lemma StageAt(prior: Prior, g: Graph, l: Layout, report: Report, d: nat, s: nat)
    requires LayoutOk(prior, g, l, report) && d < |report.definitions| && s < 6
    ensures Recorded(prior, g, l.chains[d][s], StageQuery(report.definitions[d], s),
      [Below(l.index[report.definitions[d].inModule], l.chains[d], s)], StageResult(report.definitions[d], s))
  {
    assert ChainOk(prior, g, l.index[report.definitions[d].inModule], l.chains[d], report.definitions[d]);
  }

  // ---- what is recorded for a report is kept

  /** Whether reused or given, a recorded query keeps what the given result would. */
  lemma RecordedIsKept(prior: Prior, g: Graph, i: nat, q: Query, deps: seq<nat>, result: Fingerprint)
    requires KeptOk(prior.graph) && Recorded(prior, g, i, q, deps, result)
    requires (forall k :: 0 <= k < |deps| ==> deps[k] < |g.nodes|) && KeptAs(q, result, Answers(g, deps))
    ensures NodeKept(g, i)
  {
    if Reusable(prior, g, q, deps) {
      assert NodeKept(prior.graph, prior.lookup[q]);
      CopyIsKept(prior.graph, prior.lookup[q], g, i);
    }
  }

  /** The query a stage of a definition reads. */
  function QueryBelow(d: Definition, s: nat): Query
    requires s < 6
  {
    if s == 0 then IndexQuery(d.inModule) else StageQuery(d, s - 1)
  }

  lemma GivenStageIsKept(d: Definition, s: nat, below: Answer)
    requires s < 6 && below.query == QueryBelow(d, s)
    ensures KeptAs(StageQuery(d, s), StageResult(d, s), [below])
  {
    assert Revision(d).parts[1] == Hir(d) && Revision(d).parts[0] == Identity(d);
  }

  lemma StageIsKept(prior: Prior, g: Graph, index: nat, chain: seq<nat>, d: Definition, s: nat)
    requires KeptOk(prior.graph) && ChainOk(prior, g, index, chain, d) && s < |chain|
    requires index < |g.nodes| && QueryOf(g, index) == IndexQuery(d.inModule)
    ensures NodeKept(g, chain[s]) && QueryOf(g, chain[s]) == StageQuery(d, s)
  {
    var below := Below(index, chain, s);
    assert s > 0 ==> Recorded(prior, g, chain[s - 1], StageQuery(d, s - 1), [Below(index, chain, s - 1)],
      StageResult(d, s - 1));
    GivenStageIsKept(d, s, AnswerOf(g, below));
    assert Answers(g, [below]) == [AnswerOf(g, below)];
    RecordedIsKept(prior, g, chain[s], StageQuery(d, s), [below], StageResult(d, s));
  }

  lemma ListIsKept(prior: Prior, g: Graph, parse: nat, i: nat, m: nat, list: seq<Definition>)
    requires KeptOk(prior.graph) && parse < |g.nodes| && QueryOf(g, parse) == ParseQuery(m)
    requires Recorded(prior, g, i, IndexQuery(m), [parse], Headers(list))
    ensures NodeKept(g, i)
  {
    RecordedIsKept(prior, g, i, IndexQuery(m), [parse], Headers(list));
  }

  lemma IndexIsKept(prior: Prior, g: Graph, l: Layout, report: Report, m: nat)
    requires KeptOk(prior.graph) && ParsesAt(g, l.parses) && m in l.index
    requires IndexesOk(prior, g, l.parses, l.index, ListsOf(report.definitions))
    ensures NodeKept(g, l.index[m]) && QueryOf(g, l.index[m]) == IndexQuery(m)
  {
    assert Recorded(prior, g, l.index[m], IndexQuery(m), [l.parses[m]], ListsOf(report.definitions)(m));
    ListIsKept(prior, g, l.parses[m], l.index[m], m, InModule(report.definitions, m));
  }

  lemma ChainIsKept(prior: Prior, g: Graph, l: Layout, report: Report, d: nat, s: nat)
    requires KeptOk(prior.graph) && LayoutOk(prior, g, l, report) && d < |report.definitions| && s < 6
    ensures NodeKept(g, l.chains[d][s]) && QueryOf(g, l.chains[d][s]) == StageQuery(report.definitions[d], s)
  {
    var m := report.definitions[d].inModule;
    IndexIsKept(prior, g, l, report, m);
    StageIsKept(prior, g, l.index[m], l.chains[d], report.definitions[d], s);
  }

  /** The last stages of the definitions, as kept, are their roles and tell which they are. */
  lemma HeadsAreRoles(g: Graph, heads: seq<nat>, definitions: seq<Definition>)
    requires |heads| == |definitions| && forall k :: 0 <= k < |heads| ==> heads[k] < |g.nodes|
    requires forall k :: 0 <= k < |heads| ==>
      NodeKept(g, heads[k]) && QueryOf(g, heads[k]) == StageQuery(definitions[k], 5)
    ensures AreRoles(Answers(g, heads)) && Identities(Answers(g, heads)) == Reached(definitions)
  {
    forall k | 0 <= k < |heads| ensures Answers(g, heads)[k].query == StageQuery(definitions[k], 5) {
      assert NodeKept(g, heads[k]);
    }
    assert Identities(Answers(g, heads)).parts == Reached(definitions).parts;
  }

  lemma LayoutHeads(prior: Prior, g: Graph, l: Layout, report: Report)
    requires KeptOk(prior.graph) && LayoutOk(prior, g, l, report)
    ensures forall k :: 0 <= k < |Heads(l.chains)| ==> Heads(l.chains)[k] < |g.nodes|
    ensures AreRoles(Answers(g, Heads(l.chains)))
      && Identities(Answers(g, Heads(l.chains))) == Reached(report.definitions)
  {
    forall d: nat | d < |report.definitions|
      ensures NodeKept(g, Heads(l.chains)[d])
      ensures QueryOf(g, Heads(l.chains)[d]) == StageQuery(report.definitions[d], 5)
    {
      ChainIsKept(prior, g, l, report, d, 5);
    }
    HeadsAreRoles(g, Heads(l.chains), report.definitions);
  }

  lemma ReachableIsKept(prior: Prior, g: Graph, i: nat, entry: Fingerprint, heads: seq<nat>,
      definitions: seq<Definition>)
    requires KeptOk(prior.graph) && (forall k :: 0 <= k < |heads| ==> heads[k] < |g.nodes|)
    requires AreRoles(Answers(g, heads)) && Identities(Answers(g, heads)) == Reached(definitions)
    requires Recorded(prior, g, i, Query(ReachableDefinitions, entry), heads, Reached(definitions))
    ensures NodeKept(g, i) && g.nodes[i].result == Reached(definitions)
  {
    RecordedIsKept(prior, g, i, Query(ReachableDefinitions, entry), heads, Reached(definitions));
  }

  lemma CollectIsKept(prior: Prior, g: Graph, i: nat, reachable: nat, entry: Fingerprint, heads: seq<nat>,
      definitions: seq<Definition>, diagnostics: Fingerprint)
    requires KeptOk(prior.graph) && (forall k :: 0 <= k < |heads| ==> heads[k] < |g.nodes|)
    requires AreRoles(Answers(g, heads)) && Identities(Answers(g, heads)) == Reached(definitions)
    requires reachable < |g.nodes| && QueryOf(g, reachable) == Query(ReachableDefinitions, entry)
    requires g.nodes[reachable].result == Reached(definitions)
    requires Recorded(prior, g, i, Query(CollectDiagnostics, entry), [reachable] + heads, diagnostics)
    ensures NodeKept(g, i)
  {
    assert Answers(g, [reachable] + heads)[1..] == Answers(g, heads);
    RecordedIsKept(prior, g, i, Query(CollectDiagnostics, entry), [reachable] + heads, diagnostics);
  }

  lemma TopIsKept(prior: Prior, g: Graph, l: Layout, report: Report)
    requires KeptOk(prior.graph) && LayoutOk(prior, g, l, report)
    ensures NodeKept(g, l.reachable) && g.nodes[l.reachable].result == Reached(report.definitions)
    ensures NodeKept(g, l.collect)
  {
    LayoutHeads(prior, g, l, report);
    ReachableIsKept(prior, g, l.reachable, report.entry, Heads(l.chains), report.definitions);
    CollectIsKept(prior, g, l.collect, l.reachable, report.entry, Heads(l.chains), report.definitions,
      report.diagnostics);
  }

  /** A node recorded for the report is one of the layout. */
  lemma AddedIsKept(prior: Prior, g: Graph, l: Layout, report: Report, j: nat)
    requires KeptOk(prior.graph) && LayoutOk(prior, g, l, report) && InOrder(l, report)
    requires l.first <= j <= l.collect
    ensures NodeKept(g, j)
  {
    var n := l.first + |report.modules|;
    if j < n {
      IndexIsKept(prior, g, l, report, report.modules[j - l.first]);
    } else if j < l.reachable {
      var d, s := (j - n) / 6, (j - n) % 6;
      assert EndsAt(l.chains[d], n + 6 * d + 6) && l.chains[d][s] == j;
      ChainIsKept(prior, g, l, report, d, s);
    } else {
      TopIsKept(prior, g, l, report);
    }
  }

  /** Recording a report keeps everything. */
  lemma LayoutIsKept(prior: Prior, g: Graph, h: Graph, l: Layout, report: Report)
    requires KeptOk(prior.graph) && KeptOk(g) && GraphExtends(g, h) && LayoutOk(prior, h, l, report)
    requires InOrder(l, report) && l.first == |g.nodes| && |h.nodes| == l.collect + 1
    ensures KeptOk(h)
  {
    forall j: nat | |g.nodes| <= j < |h.nodes| ensures NodeKept(h, j) {
      AddedIsKept(prior, h, l, report, j);
    }
    KeptGrows(g, h);
  }

  /** Stage `s` of definition `d` is recorded as given. */
  ghost predicate StageRight(g: Graph, l: Layout, report: Report, d: nat, s: nat) {
    d < |report.definitions| && d < |l.chains| && s < |l.chains[d]| && s < 6 && l.chains[d][s] < |g.nodes|
    && g.nodes[l.chains[d][s]].result == StageResult(report.definitions[d], s)
  }

  /** The stages whose key, the revision, decides the result. */
  predicate Decided(s: nat) {
    s == 1 || s == 2 || s == 4 || s == 5
  }

  lemma DecidedByKey(d: Definition, s: nat, result: Fingerprint, below: seq<Answer>)
    requires Decided(s) && KeptAs(StageQuery(d, s), result, below)
    ensures result == StageResult(d, s)
  {
    assert Revision(d).parts[1] == Hir(d);
  }

  lemma DecidedIsRight(prior: Prior, g: Graph, l: Layout, report: Report, d: nat, s: nat)
    requires KeptOk(prior.graph) && LayoutOk(prior, g, l, report) && d < |report.definitions| && Decided(s)
    ensures StageRight(g, l, report, d, s)
  {
    ChainIsKept(prior, g, l, report, d, s);
    var i := l.chains[d][s];
    DecidedByKey(report.definitions[d], s, g.nodes[i].result, Answers(g, Deps(g, i)));
  }

  /** Whatever the session before recorded: the source graph, the resolutions, the availability and
      the roles of every definition, and the list of reachable definitions, are recorded as given,
      also when they are reused. */
  lemma RevisionsAreNeverOld(prior: Prior, g: Graph, l: Layout, report: Report)
    requires KeptOk(prior.graph) && LayoutOk(prior, g, l, report)
    ensures g.nodes[l.reachable].result == Reached(report.definitions)
    ensures forall d: nat, s: nat | d < |report.definitions| && Decided(s) :: StageRight(g, l, report, d, s)
  {
    TopIsKept(prior, g, l, report);
    forall d: nat, s: nat | d < |report.definitions| && Decided(s) ensures StageRight(g, l, report, d, s) {
      DecidedIsRight(prior, g, l, report, d, s);
    }
  }
}
