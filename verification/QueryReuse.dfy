/** When a query recorded for a report is reused, and when its recorded result is then the one
    that executing the query would give: kind by kind, for every session over every other. */
module QueryReuse {
  import opened Common
  import opened Incremental
  import opened CheckSession
  import opened ReportGraph
  import opened CheckGraph

  // ---- when a query is reused

  predicate SameTokens(tokens: Tokenizer, before: Texts, texts: Texts, m: nat) {
    tokens(m, before(m)) == tokens(m, texts(m))
  }

  /** A list is reused exactly when one was recorded and the module has the tokens it had. */
  lemma ListIsReused(tokens: Tokenizer, before: Texts, texts: Texts, prior: Prior, g: Graph, m: nat, parse: nat)
    requires PriorOk(prior) && KeptOk(prior.graph) && ParsesNow(tokens, before, prior.graph)
    requires ParsedAt(tokens, texts, g, m, parse)
    ensures Reusable(prior, g, IndexQuery(m), [parse])
      <==> IndexQuery(m) in prior.lookup && SameTokens(tokens, before, texts, m)
  {
    if IndexQuery(m) in prior.lookup {
      var i := prior.lookup[IndexQuery(m)];
      assert NodeKept(prior.graph, i);
      var p := Deps(prior.graph, i)[0];
      assert Answers(prior.graph, Deps(prior.graph, i))[0].query == ParseQuery(m);
      assert ParseNow(tokens, before, prior.graph, p);
      assert SameAnswers(prior.graph, Deps(prior.graph, i), g, [parse]) <==> SameAnswer(prior.graph, p, g, parse);
    }
  }

  /** The list the session before read for a definition's header. */
  ghost function ListRead(prior: Prior, q: Query): Fingerprint
    requires PriorOk(prior) && KeptOk(prior.graph) && q in prior.lookup && q.kind == DefinitionHeader
  {
    var i := prior.lookup[q];
    assert NodeKept(prior.graph, i);
    prior.graph.nodes[Deps(prior.graph, i)[0]].result
  }

  /** A header is reused exactly when one was recorded that read the list recorded now. */
  lemma HeaderIsReused(prior: Prior, g: Graph, d: Definition, index: nat)
    requires PriorOk(prior) && KeptOk(prior.graph)
    requires index < |g.nodes| && QueryOf(g, index) == IndexQuery(d.inModule)
    ensures Reusable(prior, g, StageQuery(d, 0), [index])
      <==> StageQuery(d, 0) in prior.lookup && ListRead(prior, StageQuery(d, 0)) == g.nodes[index].result
  {
    if StageQuery(d, 0) in prior.lookup {
      var i := prior.lookup[StageQuery(d, 0)];
      assert NodeKept(prior.graph, i);
      var p := Deps(prior.graph, i)[0];
      assert Answers(prior.graph, Deps(prior.graph, i))[0].query == IndexQuery(d.inModule);
      assert SameAnswers(prior.graph, Deps(prior.graph, i), g, [index]) <==> SameAnswer(prior.graph, p, g, index);
    }
  }

  /** The types are reused exactly when they were recorded for the same source graph. */
  lemma TypesAreReused(prior: Prior, g: Graph, d: Definition, resolve: nat)
    requires PriorOk(prior) && KeptOk(prior.graph)
    requires NodeKept(g, resolve) && QueryOf(g, resolve) == StageQuery(d, 2)
    ensures Reusable(prior, g, StageQuery(d, 3), [resolve]) <==> StageQuery(d, 3) in prior.lookup
  {
    if StageQuery(d, 3) in prior.lookup {
      var i := prior.lookup[StageQuery(d, 3)];
      assert NodeKept(prior.graph, i);
      var p := Deps(prior.graph, i)[0];
      assert Answers(prior.graph, Deps(prior.graph, i))[0].query == StageQuery(d, 2);
      assert NodeKept(prior.graph, p);
      assert SameAnswer(prior.graph, p, g, resolve);
    }
  }

  /** The revisions of some definitions, as the roles below a query tell them. */
  function Keys(answers: seq<Answer>): seq<Fingerprint> {
    seq(|answers|, k requires 0 <= k < |answers| => answers[k].query.key)
  }

  function Revisions(definitions: seq<Definition>): seq<Fingerprint> {
    seq(|definitions|, k requires 0 <= k < |definitions| => Revision(definitions[k]))
  }

  lemma RolesFollowKeys(xs: seq<Answer>, ys: seq<Answer>)
    requires AreRoles(xs) && AreRoles(ys)
    ensures xs == ys <==> Keys(xs) == Keys(ys)
  {
    if Keys(xs) == Keys(ys) {
      forall k | 0 <= k < |xs| ensures xs[k] == ys[k] {
        assert Keys(xs)[k] == Keys(ys)[k];
      }
    }
  }

  /** The revisions whose roles the session before read for its diagnostics. */
  ghost function RevisionsRead(prior: Prior, q: Query): seq<Fingerprint>
    requires PriorOk(prior) && KeptOk(prior.graph) && q in prior.lookup && q.kind == CollectDiagnostics
  {
    var i := prior.lookup[q];
    assert NodeKept(prior.graph, i);
    Keys(Answers(prior.graph, Deps(prior.graph, i))[1..])
  }

  lemma CollectedAlike(entry: Fingerprint, result: Fingerprint, xs: seq<Answer>, reachable: Answer, ys: seq<Answer>)
    requires KeptAs(Query(CollectDiagnostics, entry), result, xs)
    requires AreRoles(ys) && reachable == Answer(Query(ReachableDefinitions, entry), Identities(ys))
    ensures xs == [reachable] + ys <==> Keys(xs[1..]) == Keys(ys)
  {
    RolesFollowKeys(xs[1..], ys);
    assert xs == [xs[0]] + xs[1..];
    if xs == [reachable] + ys {
      assert xs[1..] == ys;
    }
  }

  lemma KeysOfHeads(g: Graph, heads: seq<nat>, definitions: seq<Definition>)
    requires |heads| == |definitions| && forall k :: 0 <= k < |heads| ==> heads[k] < |g.nodes|
    requires forall k :: 0 <= k < |heads| ==> QueryOf(g, heads[k]) == StageQuery(definitions[k], 5)
    ensures Keys(Answers(g, heads)) == Revisions(definitions)
  {
  }

  /** The diagnostics are reused exactly when they were recorded for the same entry over the same
      source graphs in the same order. */
  lemma DiagnosticsAreReused(prior: Prior, g: Graph, l: Layout, report: Report)
    requires PriorOk(prior) && KeptOk(prior.graph) && LayoutOk(prior, g, l, report)
    ensures var q := Query(CollectDiagnostics, report.entry);
      Reusable(prior, g, q, [l.reachable] + Heads(l.chains))
      <==> q in prior.lookup && RevisionsRead(prior, q) == Revisions(report.definitions)
  {
    LayoutHeads(prior, g, l, report);
    TopIsKept(prior, g, l, report);
    HeadsAreRevisions(prior, g, l, report);
    CollectIsReused(prior, g, report.entry, l.reachable, Heads(l.chains));
  }

  lemma CollectIsReused(prior: Prior, g: Graph, entry: Fingerprint, reachable: nat, heads: seq<nat>)
    requires PriorOk(prior) && KeptOk(prior.graph)
    requires reachable < |g.nodes| && forall k :: 0 <= k < |heads| ==> heads[k] < |g.nodes|
    requires AreRoles(Answers(g, heads))
    requires AnswerOf(g, reachable) == Answer(Query(ReachableDefinitions, entry), Identities(Answers(g, heads)))
    ensures var q := Query(CollectDiagnostics, entry);
      Reusable(prior, g, q, [reachable] + heads)
      <==> q in prior.lookup && RevisionsRead(prior, q) == Keys(Answers(g, heads))
  {
    var q := Query(CollectDiagnostics, entry);
    if q in prior.lookup {
      var i := prior.lookup[q];
      assert NodeKept(prior.graph, i);
      SameAnswersAreEqual(prior.graph, Deps(prior.graph, i), g, [reachable] + heads);
      assert Answers(g, [reachable] + heads) == [AnswerOf(g, reachable)] + Answers(g, heads);
      CollectedAlike(entry, prior.graph.nodes[i].result, Answers(prior.graph, Deps(prior.graph, i)),
        AnswerOf(g, reachable), Answers(g, heads));
    }
  }

  lemma HeadsAreRevisions(prior: Prior, g: Graph, l: Layout, report: Report)
    requires KeptOk(prior.graph) && LayoutOk(prior, g, l, report)
    ensures forall k :: 0 <= k < |Heads(l.chains)| ==> Heads(l.chains)[k] < |g.nodes|
    ensures Keys(Answers(g, Heads(l.chains))) == Revisions(report.definitions)
  {
    forall d: nat | d < |report.definitions|
      ensures Heads(l.chains)[d] < |g.nodes|
      ensures QueryOf(g, Heads(l.chains)[d]) == StageQuery(report.definitions[d], 5)
    {
      ChainIsKept(prior, g, l, report, d, 5);
    }
    KeysOfHeads(g, Heads(l.chains), report.definitions);
  }

  // ---- exactly when a result is right, over any session before

  /** The result the session before recorded. */
  function Was(prior: Prior, q: Query): Fingerprint
    requires q in prior.lookup && prior.lookup[q] < |prior.graph.nodes|
  {
    prior.graph.nodes[prior.lookup[q]].result
  }

  ghost predicate ListRight(g: Graph, l: Layout, report: Report, m: nat) {
    m in l.index && l.index[m] < |g.nodes| && g.nodes[l.index[m]].result == Headers(InModule(report.definitions, m))
  }

  ghost predicate DiagnosticsRight(g: Graph, l: Layout, report: Report) {
    l.collect < |g.nodes| && g.nodes[l.collect].result == report.diagnostics
  }

  /** This session recorded a report of the texts now. */
  ghost predicate Now(tokens: Tokenizer, texts: Texts, prior: Prior, g: Graph, l: Layout, report: Report) {
    LayoutOk(prior, g, l, report) && ReportOk(report) && ParsedFrom(tokens, texts, g, l.parses)
  }

  /** A session of any run, over texts `before`, as the next one finds it. */
  ghost predicate Loaded(tokens: Tokenizer, before: Texts, prior: Prior) {
    PriorOk(prior) && KeptOk(prior.graph) && ParsesNow(tokens, before, prior.graph)
  }

  lemma ListRightIff(tokens: Tokenizer, before: Texts, prior: Prior, texts: Texts, g: Graph, l: Layout, report: Report,
      m: nat)
    requires Loaded(tokens, before, prior) && Now(tokens, texts, prior, g, l, report) && m in report.modules
    ensures m in l.index && l.index[m] < |g.nodes| && QueryOf(g, l.index[m]) == IndexQuery(m)
    ensures ListRight(g, l, report, m)
      <==> (IndexQuery(m) in prior.lookup && SameTokens(tokens, before, texts, m)
        ==> Was(prior, IndexQuery(m)) == Headers(InModule(report.definitions, m)))
  {
    assert Recorded(prior, g, l.index[m], IndexQuery(m), [l.parses[m]], ListsOf(report.definitions)(m));
    ListIsReused(tokens, before, texts, prior, g, m, l.parses[m]);
  }

  lemma HeaderRightIff(prior: Prior, g: Graph, l: Layout, report: Report, d: nat)
    requires PriorOk(prior) && KeptOk(prior.graph) && LayoutOk(prior, g, l, report) && d < |report.definitions|
    ensures l.index[report.definitions[d].inModule] < |g.nodes|
    ensures var q := StageQuery(report.definitions[d], 0);
      StageRight(g, l, report, d, 0)
      <==> (q in prior.lookup && ListRead(prior, q) == g.nodes[l.index[report.definitions[d].inModule]].result
        ==> Was(prior, q) == report.definitions[d].signature)
  {
    IndexIsKept(prior, g, l, report, report.definitions[d].inModule);
    StageAt(prior, g, l, report, d, 0);
    HeaderIsReused(prior, g, report.definitions[d], l.index[report.definitions[d].inModule]);
  }

  /** The signature recorded with the types of a definition. */
  ghost function SignatureWas(prior: Prior, q: Query): Fingerprint
    requires PriorOk(prior) && KeptOk(prior.graph) && q in prior.lookup && q.kind == InferTypes
  {
    assert NodeKept(prior.graph, prior.lookup[q]);
    Was(prior, q).parts[0]
  }

  lemma TypesWere(prior: Prior, d: Definition)
    requires PriorOk(prior) && KeptOk(prior.graph) && StageQuery(d, 3) in prior.lookup
    ensures Was(prior, StageQuery(d, 3)) == StageResult(d, 3) <==> SignatureWas(prior, StageQuery(d, 3)) == d.signature
  {
    assert NodeKept(prior.graph, prior.lookup[StageQuery(d, 3)]);
    assert Was(prior, StageQuery(d, 3)) == Parts([SignatureWas(prior, StageQuery(d, 3)), d.types]);
    assert StageResult(d, 3).parts[0] == d.signature;
  }

  lemma TypesRightIff(prior: Prior, g: Graph, l: Layout, report: Report, d: nat)
    requires PriorOk(prior) && KeptOk(prior.graph) && LayoutOk(prior, g, l, report) && d < |report.definitions|
    ensures var q := StageQuery(report.definitions[d], 3);
      StageRight(g, l, report, d, 3)
      <==> (q in prior.lookup ==> SignatureWas(prior, q) == report.definitions[d].signature)
  {
    var definition := report.definitions[d];
    StageAt(prior, g, l, report, d, 3);
    ChainIsKept(prior, g, l, report, d, 2);
    TypesAreReused(prior, g, definition, l.chains[d][2]);
    if StageQuery(definition, 3) in prior.lookup {
      TypesWere(prior, definition);
    }
  }

  lemma DiagnosticsRightIff(prior: Prior, g: Graph, l: Layout, report: Report)
    requires PriorOk(prior) && KeptOk(prior.graph) && LayoutOk(prior, g, l, report)
    ensures var q := Query(CollectDiagnostics, report.entry);
      DiagnosticsRight(g, l, report)
      <==> (q in prior.lookup && RevisionsRead(prior, q) == Revisions(report.definitions)
        ==> Was(prior, q) == report.diagnostics)
  {
    DiagnosticsAreReused(prior, g, l, report);
  }

  // ---- equal lists

  /** Two lists show the same names with the same signatures. */
  predicate SameHeaders(fs: seq<Definition>, gs: seq<Definition>) {
    |fs| == |gs| && forall k :: 0 <= k < |fs| ==> fs[k].name == gs[k].name && fs[k].signature == gs[k].signature
  }

  lemma HeadersDecide(fs: seq<Definition>, gs: seq<Definition>)
    ensures Headers(fs) == Headers(gs) <==> SameHeaders(fs, gs)
  {
    if Headers(fs) == Headers(gs) {
      assert |Headers(fs).parts| == |fs| && |Headers(gs).parts| == |gs|;
      forall k | 0 <= k < |fs| ensures fs[k].name == gs[k].name && fs[k].signature == gs[k].signature {
        assert Headers(fs).parts[k].parts[0] == Headers(gs).parts[k].parts[0];
        assert Headers(fs).parts[k].parts[1] == Headers(gs).parts[k].parts[1];
      }
    }
    if SameHeaders(fs, gs) {
      assert Headers(fs).parts == Headers(gs).parts;
    }
  }

  lemma {:induction false} InsertHas(d: Definition, sorted: seq<Definition>, x: Definition)
    ensures x in Insert(d, sorted) <==> x == d || x in sorted
  {
    if sorted != [] && d.name >= sorted[0].name {
      InsertHas(d, sorted[1..], x);
      assert sorted == [sorted[0]] + sorted[1..];
    }
  }

  /** The list of a module holds its definitions and no others. */
  lemma {:induction false} InModuleHas(definitions: seq<Definition>, m: nat, x: Definition)
    ensures x in InModule(definitions, m) <==> x in definitions && x.inModule == m
  {
    if definitions != [] {
      var last := definitions[|definitions| - 1];
      InModuleHas(definitions[..|definitions| - 1], m, x);
      assert definitions == definitions[..|definitions| - 1] + [last];
      if last.inModule == m {
        InsertHas(last, InModule(definitions[..|definitions| - 1], m), x);
      }
    }
  }

  lemma OneDefinition(report: Report, d: Definition, e: Definition)
    requires ReportOk(report) && d in report.definitions && e in report.definitions && Identity(d) == Identity(e)
    ensures d == e
  {
    assert Identity(d).parts[0] == Identity(e).parts[0] && Identity(d).parts[1] == Identity(e).parts[1];
  }

  /** Equal lists show equal signatures of a definition. */
  lemma ListedAlike(before: Report, report: Report, e: Definition, d: Definition)
    requires ReportOk(before) && ReportOk(report) && e in before.definitions && d in report.definitions
    requires Identity(e) == Identity(d)
    requires SameHeaders(InModule(before.definitions, d.inModule), InModule(report.definitions, d.inModule))
    ensures e.signature == d.signature
  {
    var m := d.inModule;
    var fs, gs := InModule(before.definitions, m), InModule(report.definitions, m);
    assert Identity(d).parts[0] == Identity(e).parts[0] && Identity(d).parts[1] == Identity(e).parts[1];
    InModuleHas(before.definitions, m, e);
    var k :| 0 <= k < |fs| && fs[k] == e;
    InModuleHas(report.definitions, m, gs[k]);
    OneDefinition(report, gs[k], d);
  }

  // ---- a session over one that recorded everything as given

  /** A recorded answer is the one given for this report. */
  ghost predicate GivenBy(report: Report, a: Answer) {
    match a.query.kind
    case SourceText => true
    case ParseModule => true
    case CheckEntry => true
    case IndexModule =>
      exists m: nat :: m in report.modules && a == Answer(IndexQuery(m), ListsOf(report.definitions)(m))
    case ReachableDefinitions => a == Answer(Query(ReachableDefinitions, report.entry), Reached(report.definitions))
    case CollectDiagnostics => a == Answer(Query(CollectDiagnostics, report.entry), report.diagnostics)
    case _ =>
      exists d: nat, s: nat :: d < |report.definitions| && s < 6
        && a == Answer(StageQuery(report.definitions[d], s), StageResult(report.definitions[d], s))
  }

  /** The graph records this report, everything as given. */
  ghost predicate Honest(g: Graph, report: Report) {
    forall i: nat | i < |g.nodes| :: GivenBy(report, AnswerOf(g, i))
  }

  /** The lookup finds every query of the report. */
  ghost predicate Complete(lookup: map<Query, nat>, report: Report) {
    && (forall m | m in report.modules :: IndexQuery(m) in lookup)
    && (forall d: nat, s: nat | d < |report.definitions| && s < 6 :: StageQuery(report.definitions[d], s) in lookup)
    && Query(CollectDiagnostics, report.entry) in lookup
  }

  /** The session before recorded the report of the texts then, everything as given. */
  ghost predicate Before(tokens: Tokenizer, before: Texts, prior: Prior, old_: Report) {
    Loaded(tokens, before, prior) && ReportOk(old_) && Honest(prior.graph, old_) && Complete(prior.lookup, old_)
  }

  /** The list found for a module of the report before is the one given then. */
  lemma FoundList(prior: Prior, old_: Report, m: nat)
    requires PriorOk(prior) && Honest(prior.graph, old_) && Complete(prior.lookup, old_)
    ensures IndexQuery(m) in prior.lookup <==> m in old_.modules
    ensures m in old_.modules ==>
      prior.graph.nodes[prior.lookup[IndexQuery(m)]].result == Headers(InModule(old_.definitions, m))
  {
    if IndexQuery(m) in prior.lookup {
      var a := AnswerOf(prior.graph, prior.lookup[IndexQuery(m)]);
      assert GivenBy(old_, a);
      var n: nat :| n in old_.modules && a == Answer(IndexQuery(n), ListsOf(old_.definitions)(n));
      assert IndexQuery(m).key.content == IndexQuery(n).key.content;
    }
  }

  /** What is found for a stage of a definition was given for the definition then. */
  lemma FoundStage(prior: Prior, old_: Report, d: Definition, s: nat) returns (e: Definition)
    requires PriorOk(prior) && Honest(prior.graph, old_) && s < 6 && StageQuery(d, s) in prior.lookup
    ensures e in old_.definitions && StageQuery(e, s) == StageQuery(d, s)
    ensures prior.graph.nodes[prior.lookup[StageQuery(d, s)]].result == StageResult(e, s)
  {
    var a := AnswerOf(prior.graph, prior.lookup[StageQuery(d, s)]);
    assert GivenBy(old_, a);
    var k: nat, t: nat :| k < |old_.definitions| && t < 6
      && a == Answer(StageQuery(old_.definitions[k], t), StageResult(old_.definitions[k], t));
    e := old_.definitions[k];
    assert s == t;
  }

  /** It is the only definition of that identity. */
  lemma FoundDefinition(prior: Prior, old_: Report, e: Definition, d: Definition, s: nat)
    requires PriorOk(prior) && Honest(prior.graph, old_) && Complete(prior.lookup, old_) && ReportOk(old_)
    requires e in old_.definitions && s < 6 && StageQuery(e, s) == StageQuery(d, s)
    ensures StageQuery(d, s) in prior.lookup
    ensures prior.graph.nodes[prior.lookup[StageQuery(d, s)]].result == StageResult(e, s)
  {
    var k :| 0 <= k < |old_.definitions| && old_.definitions[k] == e;
    assert StageQuery(old_.definitions[k], s) in prior.lookup;
    var f := FoundStage(prior, old_, d, s);
    assert Identity(f) == Identity(e) by {
      if s > 0 {
        assert Revision(f).parts[0] == Revision(e).parts[0];
      }
    }
    OneDefinition(old_, f, e);
  }

  // ---- exactly when what is recorded is what executing the query would give

  /** The list recorded for a module: the one before, if its tokens are as before. */
  lemma ListRecorded(tokens: Tokenizer, before: Texts, prior: Prior, old_: Report, texts: Texts, g: Graph, l: Layout,
      report: Report, m: nat)
    requires Before(tokens, before, prior, old_) && Now(tokens, texts, prior, g, l, report) && m in report.modules
    ensures m in l.index && l.index[m] < |g.nodes| && QueryOf(g, l.index[m]) == IndexQuery(m)
    ensures g.nodes[l.index[m]].result ==
      if m in old_.modules && SameTokens(tokens, before, texts, m) then Headers(InModule(old_.definitions, m))
      else Headers(InModule(report.definitions, m))
  {
    assert Recorded(prior, g, l.index[m], IndexQuery(m), [l.parses[m]], ListsOf(report.definitions)(m));
    ListIsReused(tokens, before, texts, prior, g, m, l.parses[m]);
    FoundList(prior, old_, m);
  }

  /** The list of a module is right exactly when the module was not in the report before, or has
      other tokens, or shows the same names and signatures. */
  lemma ListRightExactly(tokens: Tokenizer, before: Texts, prior: Prior, old_: Report, texts: Texts, g: Graph,
      l: Layout, report: Report, m: nat)
    requires Before(tokens, before, prior, old_) && Now(tokens, texts, prior, g, l, report) && m in report.modules
    ensures ListRight(g, l, report, m)
      <==> (m in old_.modules && SameTokens(tokens, before, texts, m)
        ==> SameHeaders(InModule(old_.definitions, m), InModule(report.definitions, m)))
  {
    ListRecorded(tokens, before, prior, old_, texts, g, l, report, m);
    HeadersDecide(InModule(old_.definitions, m), InModule(report.definitions, m));
  }

  /** The list read for the header of a definition before is the one given then. */
  lemma ListReadBefore(prior: Prior, old_: Report, d: Definition)
    requires PriorOk(prior) && KeptOk(prior.graph) && Honest(prior.graph, old_) && StageQuery(d, 0) in prior.lookup
    ensures ListRead(prior, StageQuery(d, 0)) == Headers(InModule(old_.definitions, d.inModule))
  {
    var i := prior.lookup[StageQuery(d, 0)];
    assert NodeKept(prior.graph, i);
    assert Answers(prior.graph, Deps(prior.graph, i))[0].query == IndexQuery(d.inModule);
    var a := AnswerOf(prior.graph, Deps(prior.graph, i)[0]);
    assert GivenBy(old_, a);
    var n: nat :| n in old_.modules && a == Answer(IndexQuery(n), ListsOf(old_.definitions)(n));
    assert IndexQuery(d.inModule).key.content == IndexQuery(n).key.content;
  }

  /** A header recorded although the definition was in the report before with another signature. */
  lemma HeaderRecorded(tokens: Tokenizer, before: Texts, prior: Prior, old_: Report, texts: Texts, g: Graph, l: Layout,
      report: Report, d: nat, e: Definition)
    requires Before(tokens, before, prior, old_) && Now(tokens, texts, prior, g, l, report)
    requires d < |report.definitions| && e in old_.definitions && Identity(e) == Identity(report.definitions[d])
    ensures StageRight(g, l, report, d, 0)
      <==> (SameTokens(tokens, before, texts, e.inModule) ==> e.signature == report.definitions[d].signature)
  {
    var definition := report.definitions[d];
    var m := definition.inModule;
    assert Identity(definition).parts[0] == Identity(e).parts[0];
    StageAt(prior, g, l, report, d, 0);
    ListRecorded(tokens, before, prior, old_, texts, g, l, report, m);
    FoundDefinition(prior, old_, e, definition, 0);
    ListReadBefore(prior, old_, definition);
    HeaderIsReused(prior, g, definition, l.index[m]);
    HeadersDecide(InModule(old_.definitions, m), InModule(report.definitions, m));
    if SameHeaders(InModule(old_.definitions, m), InModule(report.definitions, m)) {
      ListedAlike(old_, report, e, definition);
    }
  }

  /** The header of a definition is right exactly when no definition of its name was in the report
      before, in a module with the tokens of now, with another signature. */
  lemma HeaderRightExactly(tokens: Tokenizer, before: Texts, prior: Prior, old_: Report, texts: Texts, g: Graph,
      l: Layout, report: Report, d: nat)
    requires Before(tokens, before, prior, old_) && Now(tokens, texts, prior, g, l, report)
    requires d < |report.definitions|
    ensures StageRight(g, l, report, d, 0)
      <==> forall e | e in old_.definitions && Identity(e) == Identity(report.definitions[d])
        && SameTokens(tokens, before, texts, e.inModule) :: e.signature == report.definitions[d].signature
  {
    var definition := report.definitions[d];
    forall e | e in old_.definitions && Identity(e) == Identity(definition)
      ensures StageRight(g, l, report, d, 0)
        <==> (SameTokens(tokens, before, texts, e.inModule) ==> e.signature == definition.signature)
    {
      HeaderRecorded(tokens, before, prior, old_, texts, g, l, report, d, e);
    }
    if forall e | e in old_.definitions :: Identity(e) != Identity(definition) {
      NewHeaderIsRight(prior, old_, g, l, report, d);
    }
  }

  lemma NewHeaderIsRight(prior: Prior, old_: Report, g: Graph, l: Layout, report: Report, d: nat)
    requires PriorOk(prior) && Honest(prior.graph, old_) && LayoutOk(prior, g, l, report) && d < |report.definitions|
    requires forall e | e in old_.definitions :: Identity(e) != Identity(report.definitions[d])
    ensures StageRight(g, l, report, d, 0)
  {
    var definition := report.definitions[d];
    StageAt(prior, g, l, report, d, 0);
    if StageQuery(definition, 0) in prior.lookup {
      var e := FoundStage(prior, old_, definition, 0);
    }
  }

  /** The types of a definition are right exactly when no definition with the same source graph was
      in the report before with another signature, whatever its tokens. */
  lemma TypesRightExactly(prior: Prior, old_: Report, g: Graph, l: Layout, report: Report, d: nat)
    requires PriorOk(prior) && KeptOk(prior.graph) && ReportOk(old_)
    requires Honest(prior.graph, old_) && Complete(prior.lookup, old_)
    requires LayoutOk(prior, g, l, report) && d < |report.definitions|
    ensures StageRight(g, l, report, d, 3)
      <==> forall e | e in old_.definitions && Revision(e) == Revision(report.definitions[d]) ::
        e.signature == report.definitions[d].signature
  {
    var definition := report.definitions[d];
    var chain := l.chains[d];
    StageAt(prior, g, l, report, d, 3);
    ChainIsKept(prior, g, l, report, d, 2);
    TypesAreReused(prior, g, definition, chain[2]);
    if StageQuery(definition, 3) in prior.lookup {
      var e := FoundStage(prior, old_, definition, 3);
      SameTypes(e, definition);
    }
    forall e | e in old_.definitions && Revision(e) == Revision(definition)
      ensures StageRight(g, l, report, d, 3) <==> e.signature == definition.signature
    {
      FoundDefinition(prior, old_, e, definition, 3);
      SameTypes(e, definition);
    }
  }

  lemma SameTypes(e: Definition, d: Definition)
    requires Revision(e) == Revision(d)
    ensures StageResult(e, 3) == StageResult(d, 3) <==> e.signature == d.signature
  {
    assert Revision(e).parts[1] == Revision(d).parts[1];
    assert Hir(e).parts[2] == Hir(d).parts[2];
    assert StageResult(e, 3).parts[0] == e.signature && StageResult(d, 3).parts[0] == d.signature;
  }

  /** Roles recorded as given, of these definitions in this order, are of these revisions. */
  lemma RolesAreRevisions(old_: Report, below: seq<Answer>)
    requires ReportOk(old_) && AreRoles(below) && Identities(below) == Reached(old_.definitions)
    requires forall k :: 0 <= k < |below| ==> GivenBy(old_, below[k])
    ensures Keys(below) == Revisions(old_.definitions)
  {
    var definitions := old_.definitions;
    assert |Identities(below).parts| == |below| && |Reached(definitions).parts| == |definitions|;
    forall k | 0 <= k < |below| ensures below[k].query.key == Revision(definitions[k]) {
      assert Identities(below).parts[k] == Reached(definitions).parts[k];
      assert GivenBy(old_, below[k]);
      var d: nat, s: nat :| d < |definitions| && s < 6
        && below[k] == Answer(StageQuery(definitions[d], s), StageResult(definitions[d], s));
      assert Revision(definitions[d]).parts[0] == Identity(definitions[d]);
      OneDefinition(old_, definitions[d], definitions[k]);
    }
  }

  /** The roles read for the diagnostics before are those of the report before. */
  lemma RevisionsReadBefore(prior: Prior, old_: Report)
    requires PriorOk(prior) && KeptOk(prior.graph) && ReportOk(old_)
    requires Honest(prior.graph, old_) && Complete(prior.lookup, old_)
    ensures RevisionsRead(prior, Query(CollectDiagnostics, old_.entry)) == Revisions(old_.definitions)
  {
    var i := prior.lookup[Query(CollectDiagnostics, old_.entry)];
    assert NodeKept(prior.graph, i);
    var ids := Deps(prior.graph, i);
    var below := Answers(prior.graph, ids);
    forall k | 0 <= k < |below| ensures GivenBy(old_, below[k]) {
      assert GivenBy(old_, AnswerOf(prior.graph, ids[k]));
    }
    RolesAreRevisions(old_, below[1..]);
  }

  /** The diagnostics are right exactly when the entry or a source graph is another, or they are
      the same. */
  lemma DiagnosticsRightExactly(prior: Prior, old_: Report, g: Graph, l: Layout, report: Report)
    requires PriorOk(prior) && KeptOk(prior.graph) && ReportOk(old_)
    requires Honest(prior.graph, old_) && Complete(prior.lookup, old_) && LayoutOk(prior, g, l, report)
    ensures DiagnosticsRight(g, l, report)
      <==> (old_.entry == report.entry && Revisions(old_.definitions) == Revisions(report.definitions)
        ==> old_.diagnostics == report.diagnostics)
  {
    var q := Query(CollectDiagnostics, report.entry);
    DiagnosticsAreReused(prior, g, l, report);
    RevisionsReadBefore(prior, old_);
    if q in prior.lookup {
      assert GivenBy(old_, AnswerOf(prior.graph, prior.lookup[q]));
    }
  }

  /** Everything is recorded as given. */
  ghost predicate AllRight(g: Graph, l: Layout, report: Report) {
    && (forall m | m in report.modules :: ListRight(g, l, report, m))
    && (forall d: nat, s: nat | d < |report.definitions| && s < 6 :: StageRight(g, l, report, d, s))
    && l.reachable < |g.nodes| && g.nodes[l.reachable].result == Reached(report.definitions)
    && DiagnosticsRight(g, l, report)
  }

  /** What the session before and this one agree on: lists of modules with the same tokens, signatures
      of definitions with the same source graph, and diagnostics over the same source graphs. */
  ghost predicate NothingOld(tokens: Tokenizer, before: Texts, old_: Report, texts: Texts, report: Report) {
    && (forall m | m in report.modules && m in old_.modules && SameTokens(tokens, before, texts, m) ::
      SameHeaders(InModule(old_.definitions, m), InModule(report.definitions, m)))
    && (forall e, d | e in old_.definitions && d in report.definitions && Revision(e) == Revision(d) ::
      e.signature == d.signature)
    && (old_.entry == report.entry && Revisions(old_.definitions) == Revisions(report.definitions) ==>
      old_.diagnostics == report.diagnostics)
  }

  lemma ListsCarryHeaders(tokens: Tokenizer, before: Texts, old_: Report, texts: Texts, report: Report,
      e: Definition, d: Definition)
    requires ReportOk(old_) && ReportOk(report) && NothingOld(tokens, before, old_, texts, report)
    requires e in old_.definitions && d in report.definitions && Identity(e) == Identity(d)
    requires SameTokens(tokens, before, texts, e.inModule)
    ensures e.signature == d.signature
  {
    assert Identity(d).parts[0] == Identity(e).parts[0];
    assert d.inModule in report.modules && e.inModule in old_.modules;
    ListedAlike(old_, report, e, d);
  }

  lemma StageRightUnlessOld(tokens: Tokenizer, before: Texts, prior: Prior, old_: Report, texts: Texts, g: Graph,
      l: Layout, report: Report, d: nat, s: nat)
    requires Before(tokens, before, prior, old_) && Now(tokens, texts, prior, g, l, report)
    requires NothingOld(tokens, before, old_, texts, report) && d < |report.definitions| && s < 6
    ensures StageRight(g, l, report, d, s)
  {
    if s == 0 {
      forall e | e in old_.definitions && Identity(e) == Identity(report.definitions[d])
        && SameTokens(tokens, before, texts, e.inModule)
        ensures e.signature == report.definitions[d].signature
      {
        ListsCarryHeaders(tokens, before, old_, texts, report, e, report.definitions[d]);
      }
      HeaderRightExactly(tokens, before, prior, old_, texts, g, l, report, d);
    } else if s == 3 {
      TypesRightExactly(prior, old_, g, l, report, d);
    } else {
      DecidedIsRight(prior, g, l, report, d, s);
    }
  }

  lemma RightTypesAgree(prior: Prior, old_: Report, g: Graph, l: Layout, report: Report, e: Definition, d: Definition)
    requires PriorOk(prior) && KeptOk(prior.graph) && ReportOk(old_)
    requires Honest(prior.graph, old_) && Complete(prior.lookup, old_)
    requires LayoutOk(prior, g, l, report) && AllRight(g, l, report)
    requires e in old_.definitions && d in report.definitions && Revision(e) == Revision(d)
    ensures e.signature == d.signature
  {
    var k :| 0 <= k < |report.definitions| && report.definitions[k] == d;
    assert StageRight(g, l, report, k, 3);
    TypesRightExactly(prior, old_, g, l, report, k);
  }

  lemma RightIsNotOld(tokens: Tokenizer, before: Texts, prior: Prior, old_: Report, texts: Texts, g: Graph, l: Layout,
      report: Report)
    requires Before(tokens, before, prior, old_) && Now(tokens, texts, prior, g, l, report)
    requires AllRight(g, l, report)
    ensures NothingOld(tokens, before, old_, texts, report)
  {
    forall m | m in report.modules && m in old_.modules && SameTokens(tokens, before, texts, m)
      ensures SameHeaders(InModule(old_.definitions, m), InModule(report.definitions, m))
    {
      ListRightExactly(tokens, before, prior, old_, texts, g, l, report, m);
    }
    forall e, d | e in old_.definitions && d in report.definitions && Revision(e) == Revision(d)
      ensures e.signature == d.signature
    {
      RightTypesAgree(prior, old_, g, l, report, e, d);
    }
    DiagnosticsRightExactly(prior, old_, g, l, report);
  }

  lemma NotOldIsRight(tokens: Tokenizer, before: Texts, prior: Prior, old_: Report, texts: Texts, g: Graph, l: Layout,
      report: Report)
    requires Before(tokens, before, prior, old_) && Now(tokens, texts, prior, g, l, report)
    requires NothingOld(tokens, before, old_, texts, report)
    ensures AllRight(g, l, report)
  {
    TopIsKept(prior, g, l, report);
    DiagnosticsRightExactly(prior, old_, g, l, report);
    forall m | m in report.modules ensures ListRight(g, l, report, m) {
      ListRightExactly(tokens, before, prior, old_, texts, g, l, report, m);
    }
    forall d: nat, s: nat | d < |report.definitions| && s < 6 ensures StageRight(g, l, report, d, s) {
      StageRightUnlessOld(tokens, before, prior, old_, texts, g, l, report, d, s);
    }
  }

  /** Over a session that recorded everything as given, a session records everything as given if and
      only if nothing it reuses is old. */
  lemma AllRightExactly(tokens: Tokenizer, before: Texts, prior: Prior, old_: Report, texts: Texts, g: Graph,
      l: Layout, report: Report)
    requires Before(tokens, before, prior, old_) && Now(tokens, texts, prior, g, l, report)
    ensures AllRight(g, l, report) <==> NothingOld(tokens, before, old_, texts, report)
  {
    if AllRight(g, l, report) {
      RightIsNotOld(tokens, before, prior, old_, texts, g, l, report);
    } else if NothingOld(tokens, before, old_, texts, report) {
      NotOldIsRight(tokens, before, prior, old_, texts, g, l, report);
    }
  }

  // ---- the sessions that publish

  /** Without anything recorded before, everything is recorded as given. */
  lemma NothingBeforeIsRight(prior: Prior, g: Graph, l: Layout, report: Report)
    requires PriorOk(prior) && prior.graph.nodes == [] && LayoutOk(prior, g, l, report) && ReportOk(report)
    ensures AllRight(g, l, report)
  {
    assert forall q | q in prior.lookup :: false;
    forall m | m in report.modules ensures ListRight(g, l, report, m) {
      assert Recorded(prior, g, l.index[m], IndexQuery(m), [l.parses[m]], ListsOf(report.definitions)(m));
    }
    forall d: nat, s: nat | d < |report.definitions| && s < 6 ensures StageRight(g, l, report, d, s) {
      StageAt(prior, g, l, report, d, s);
    }
  }

  /** The answer at a place of the layout is given for the report when it is right. */
  lemma RightIsGiven(prior: Prior, g: Graph, l: Layout, report: Report, j: nat)
    requires LayoutOk(prior, g, l, report) && InOrder(l, report) && AllRight(g, l, report)
    requires l.first <= j <= l.collect < |g.nodes|
    ensures GivenBy(report, AnswerOf(g, j))
  {
    var n := l.first + |report.modules|;
    if j < n {
      var m := report.modules[j - l.first];
      assert ListRight(g, l, report, m);
      assert Recorded(prior, g, l.index[m], IndexQuery(m), [l.parses[m]], ListsOf(report.definitions)(m));
      assert AnswerOf(g, j) == Answer(IndexQuery(m), ListsOf(report.definitions)(m));
    } else if j < l.reachable {
      var d, s := (j - n) / 6, (j - n) % 6;
      assert EndsAt(l.chains[d], n + 6 * d + 6) && l.chains[d][s] == j;
      StageIsGiven(prior, g, l, report, d, s);
    }
  }

  lemma StageIsGiven(prior: Prior, g: Graph, l: Layout, report: Report, d: nat, s: nat)
    requires LayoutOk(prior, g, l, report) && StageRight(g, l, report, d, s)
    ensures GivenBy(report, AnswerOf(g, l.chains[d][s]))
  {
    StageAt(prior, g, l, report, d, s);
    GivenStage(report, d, s, AnswerOf(g, l.chains[d][s]));
  }

  lemma GivenStage(report: Report, d: nat, s: nat, a: Answer)
    requires d < |report.definitions| && s < 6
    requires a == Answer(StageQuery(report.definitions[d], s), StageResult(report.definitions[d], s))
    ensures GivenBy(report, a)
  {
  }

  /** A session that tried no replay and recorded everything as given leaves a graph that records
      its report, everything as given. */
  lemma RightIsHonest(tokens: Tokenizer, texts: Texts, st: Stored, prior: Prior, l: Layout, loaded: Graph)
    requires RecordedAt(tokens, texts, st, prior, l, loaded, true) && AllRight(st.graph, l, st.report)
    ensures Honest(st.graph, st.report)
  {
    forall j: nat | j < |st.graph.nodes| ensures GivenBy(st.report, AnswerOf(st.graph, j)) {
      if l.first <= j <= l.collect {
        RightIsGiven(prior, st.graph, l, st.report, j);
      }
    }
  }

  lemma LayoutIsComplete(prior: Prior, g: Graph, l: Layout, report: Report, lookup: map<Query, nat>)
    requires LayoutOk(prior, g, l, report) && ReportOk(report) && LookupOk(g, lookup)
    ensures Complete(lookup, report)
  {
    forall m | m in report.modules ensures IndexQuery(m) in lookup {
      assert Recorded(prior, g, l.index[m], IndexQuery(m), [l.parses[m]], ListsOf(report.definitions)(m));
    }
    forall d: nat, s: nat | d < |report.definitions| && s < 6 ensures StageQuery(report.definitions[d], s) in lookup {
      StageAt(prior, g, l, report, d, s);
    }
  }

  /** In every run: what `CheckBundle` publishes over a published graph is a report of the texts now,
      recorded over a session as above, and what its revisions decide is never old. */
  lemma EveryRunKeepsRevisions(tokens: Tokenizer, before: Texts, old_: Stored, texts: Texts, st: Stored, prior: Prior,
      l: Layout, began: bool)
    requires StoredOk(tokens, before, old_) && RecordedAt(tokens, texts, st, prior, l, old_.graph, began)
    ensures Loaded(tokens, before, prior) && Now(tokens, texts, prior, st.graph, l, st.report)
    ensures st.graph.nodes[l.reachable].result == Reached(st.report.definitions)
    ensures forall d: nat, s: nat | d < |st.report.definitions| && Decided(s) ::
      StageRight(st.graph, l, st.report, d, s)
  {
    RevisionsAreNeverOld(prior, st.graph, l, st.report);
  }

  /** A first session records everything as given. The next one to publish over its graph does so if
      and only if nothing it reuses is old: `CheckBundle` publishes such graphs. */
  lemma SecondSessionIsRightExactly(tokens: Tokenizer, before: Texts, first: Stored, prior0: Prior, l0: Layout,
      texts: Texts, second: Stored, prior: Prior, l: Layout, began: bool)
    requires StoredOk(tokens, before, first) && RecordedAt(tokens, before, first, prior0, l0, Graph([], []), true)
    requires RecordedAt(tokens, texts, second, prior, l, first.graph, began)
    ensures AllRight(first.graph, l0, first.report)
    ensures AllRight(second.graph, l, second.report)
      <==> NothingOld(tokens, before, first.report, texts, second.report)
  {
    NothingBeforeIsRight(prior0, first.graph, l0, first.report);
    RightIsHonest(tokens, before, first, prior0, l0, Graph([], []));
    LayoutIsComplete(prior0, first.graph, l0, first.report, prior.lookup);
    AllRightExactly(tokens, before, prior, first.report, texts, second.graph, l, second.report);
  }

  // ---- inputs on which an old result is recorded

  lemma ListsDiffer(f: Definition, g: Definition)
    requires f.inModule == g.inModule == 1 && f.name < g.name
    ensures Headers(InModule([f], 1)) != Headers(InModule([f, g], 1))
  {
    assert [f][..0] == [] && InModule([f], 1) == Insert(f, []) == [f];
    assert [f, g][..1] == [f] && InModule([f, g], 1) == Insert(g, [f]) == [f] + Insert(g, []);
    assert |Headers(InModule([f], 1)).parts| == 1 && |Headers(InModule([f, g], 1)).parts| == 2;
  }

  /** A graph that lists one definition of module 1, and a graph with the same text and parse. */
  function ListedGraph(f: Definition): Graph {
    Graph([StoredNode(SourceText, Value(1), Value(0), 0, 0), StoredNode(ParseModule, Value(1), Value(0), 0, 1),
      StoredNode(IndexModule, Value(1), Headers(InModule([f], 1)), 1, 1)], [0, 1])
  }

  function ParsedGraph(): Graph {
    Graph([StoredNode(SourceText, Value(1), Value(0), 0, 0), StoredNode(ParseModule, Value(1), Value(0), 0, 1)], [0])
  }

  function ListedPrior(f: Definition): Prior {
    Prior(ListedGraph(f), map[SourceQuery(1) := 0, ParseQuery(1) := 1, IndexQuery(1) := 2])
  }

  /** A second definition of an unchanged module becomes reachable: the list recorded for the
      module can be reused, although executing the query would give the longer list. */
  lemma OldListIsReused(f: Definition, g: Definition)
    requires f.inModule == g.inModule == 1 && f.name < g.name
    ensures Reusable(ListedPrior(f), ParsedGraph(), IndexQuery(1), [1])
    ensures ListedGraph(f).nodes[ListedPrior(f).lookup[IndexQuery(1)]].result != Headers(InModule([f, g], 1))
  {
    ListsDiffer(f, g);
    var p := ListedGraph(f);
    assert Deps(p, 0) == [] && Deps(p, 1) == [0] && Deps(p, 2) == [1];
    assert NodeOk(p, 0) && NodeOk(p, 1) && NodeOk(p, 2);
    assert SameAnswer(p, 1, ParsedGraph(), 1);
  }

  /** The queries about definition `d`, alone in module 1, up to its types; these were recorded with
      signature `typed`. Each query reads the one before. */
  function TypedGraph(d: Definition, text: Fingerprint, typed: Fingerprint): Graph {
    Graph([StoredNode(SourceText, Value(1), text, 0, 0), StoredNode(ParseModule, Value(1), text, 0, 1),
      StoredNode(IndexModule, Value(1), Headers([d]), 1, 1),
      StoredNode(DefinitionHeader, Identity(d), d.signature, 2, 1),
      StoredNode(LowerSourceHir, Revision(d), Hir(d), 3, 1),
      StoredNode(ResolveDefinition, Revision(d), d.resolutions, 4, 1),
      StoredNode(InferTypes, Revision(d), Parts([typed, d.types]), 5, 1)], [0, 1, 2, 3, 4, 5])
  }

  lemma TypedNode(d: Definition, text: Fingerprint, typed: Fingerprint, i: nat)
    requires i < 7
    ensures NodeOk(TypedGraph(d, text, typed), i)
    ensures Deps(TypedGraph(d, text, typed), i) == if i == 0 then [] else [i - 1]
  {
    var g := TypedGraph(d, text, typed);
    assert g.nodes[i].edgeStart == (if i == 0 then 0 else i - 1) && g.nodes[i].edgeCount == if i == 0 then 0 else 1;
    if i > 0 {
      assert g.edges[i - 1] == i - 1 && Deps(g, i) == [g.edges[i - 1]];
    }
  }

  function TypedPrior(d: Definition): Prior {
    Prior(TypedGraph(d, Value(1), d.signature), map[SourceQuery(1) := 0, ParseQuery(1) := 1, IndexQuery(1) := 2,
      StageQuery(d, 0) := 3, StageQuery(d, 1) := 4, StageQuery(d, 2) := 5, StageQuery(d, 3) := 6])
  }

  lemma TypedPriorOk(d: Definition)
    ensures PriorOk(TypedPrior(d))
  {
    forall i | 0 <= i < 7 ensures NodeOk(TypedPrior(d).graph, i) {
      TypedNode(d, Value(1), d.signature, i);
    }
  }

  /** The tokens of a module stay while the return type inferred for a definition changes, because
      that of a function called in another module did: its list and its header are reused. */
  lemma OldHeaderIsReused(d: Definition, e: Definition)
    requires Identity(e) == Identity(d) && d.inModule == e.inModule == 1 && e.signature != d.signature
    ensures var g := TypedPrior(d).graph;
      && Reusable(TypedPrior(d), g, IndexQuery(1), [1]) && Was(TypedPrior(d), IndexQuery(1)) != Headers([e])
      && Reusable(TypedPrior(d), g, StageQuery(e, 0), [2]) && Was(TypedPrior(d), StageQuery(e, 0)) != e.signature
  {
    TypedPriorOk(d);
    TypedNode(d, Value(1), d.signature, 2);
    TypedNode(d, Value(1), d.signature, 3);
    assert SameAnswer(TypedPrior(d).graph, 1, TypedPrior(d).graph, 1);
    assert SameAnswer(TypedPrior(d).graph, 2, TypedPrior(d).graph, 2);
    assert Headers([d]).parts[0].parts[1] != Headers([e]).parts[0].parts[1];
  }

  /** Whether stage `s` of the definition with the other signature can be reused. */
  lemma TypedReuse(d: Definition, e: Definition, s: nat)
    requires e == d.(signature := e.signature) && e.signature != d.signature && d.inModule == 1 && s < 4
    ensures Reusable(TypedPrior(d), TypedGraph(e, Value(2), d.signature), StageQuery(e, s), [s + 2]) <==> s >= 2
  {
    TypedPriorOk(d);
    TypedNode(d, Value(1), d.signature, s + 3);
    assert Headers([d]).parts[0].parts[1] != Headers([e]).parts[0].parts[1];
    var p, g := TypedPrior(d).graph, TypedGraph(e, Value(2), d.signature);
    assert SameAnswers(p, [s + 2], g, [s + 2]) <==> SameAnswer(p, s + 2, g, s + 2);
  }

  /** Another default value of a parameter changes the signature of a definition, the tokens of its
      module, its list and its header, but not the source graph: the old types are recorded, with
      the old signature in them. */
  lemma OldSignatureIsReused(d: Definition, e: Definition)
    requires e == d.(signature := e.signature) && e.signature != d.signature && d.inModule == 1
    ensures var g := TypedGraph(e, Value(2), d.signature);
      ChainOk(TypedPrior(d), g, 2, [3, 4, 5, 6], e) && g.nodes[3].result == StageResult(e, 0)
      && Reusable(TypedPrior(d), g, StageQuery(e, 3), [5]) && g.nodes[6].result != StageResult(e, 3)
  {
    var g, chain := TypedGraph(e, Value(2), d.signature), [3, 4, 5, 6];
    forall s: nat | s < 4
      ensures Recorded(TypedPrior(d), g, chain[s], StageQuery(e, s), [Below(2, chain, s)], StageResult(e, s))
    {
      assert chain[s] == s + 3 && Below(2, chain, s) == s + 2;
      TypedNode(e, Value(2), d.signature, s + 3);
      TypedReuse(d, e, s);
    }
    TypedReuse(d, e, 3);
    assert StageResult(e, 3).parts[0] == e.signature;
  }
}
