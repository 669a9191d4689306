/** The session of an incremental check over the stored query graph: what it queries, when it
    replays and what it publishes. It is proved to be the session of `CheckSession`. */
module CheckGraph {
  import opened Common
  import opened Incremental
  import opened CheckSession
  import opened ReportGraph

  // ---- what a replay of a stored check reads

  /** The graph of a published session: the report's queries, and the check itself recorded last. */
  ghost predicate Checked(prior: Prior, g: Graph, l: Layout, key: Fingerprint, report: Report) {
    && GraphOk(g) && ReportOk(report) && LayoutOk(prior, g, l, report) && g.nodes != []
    && NodeIs(g, |g.nodes| - 1, Query(CheckEntry, key), [l.collect])
  }

  /** The places in the graph of a report; a module's place is named by a definition it owns. */
  datatype Place = RootPlace | CollectPlace | ReachablePlace | StagePlace(d: nat, s: nat) | IndexPlace(d: nat)
    | ParsePlace(d: nat)

  predicate PlaceOk(report: Report, place: Place) {
    && (place.StagePlace? ==> place.d < |report.definitions| && place.s < 6)
    && (place.IndexPlace? ==> place.d < |report.definitions|)
    && (place.ParsePlace? ==> place.d < |report.definitions|)
  }

  function QueryAt(key: Fingerprint, report: Report, place: Place): Query
    requires PlaceOk(report, place)
  {
    match place
    case RootPlace => Query(CheckEntry, key)
    case CollectPlace => Query(CollectDiagnostics, report.entry)
    case ReachablePlace => Query(ReachableDefinitions, report.entry)
    case StagePlace(d, s) => StageQuery(report.definitions[d], s)
    case IndexPlace(d) => IndexQuery(report.definitions[d].inModule)
    case ParsePlace(d) => ParseQuery(report.definitions[d].inModule)
  }

  /** How many queries a place above the parses reads, and the place of the `k`th of them. */
  function Reads(report: Report, place: Place): nat {
    match place
    case CollectPlace => |report.definitions| + 1
    case ReachablePlace => |report.definitions|
    case _ => 1
  }

  function PlaceBelow(report: Report, place: Place, k: nat): (below: Place)
    requires PlaceOk(report, place) && !place.ParsePlace? && k < Reads(report, place)
    ensures PlaceOk(report, below)
  {
    match place
    case RootPlace => CollectPlace
    case CollectPlace => if k == 0 then ReachablePlace else StagePlace(k - 1, 5)
    case ReachablePlace => StagePlace(k, 5)
    case StagePlace(d, s) => if s == 0 then IndexPlace(d) else StagePlace(d, s - 1)
    case IndexPlace(d) => ParsePlace(d)
  }

  /** The node at a place holds its query and reads the nodes at the places below. */
  ghost predicate PlaceIs(g: Graph, at: Place -> nat, key: Fingerprint, report: Report, place: Place)
    requires PlaceOk(report, place)
  {
    && at(place) < |g.nodes| && NodeOk(g, at(place)) && QueryOf(g, at(place)) == QueryAt(key, report, place)
    && (!place.ParsePlace? ==>
      && |Deps(g, at(place))| == Reads(report, place)
      && forall k :: 0 <= k < Reads(report, place) ==> Deps(g, at(place))[k] == at(PlaceBelow(report, place, k)))
  }

  /** The nodes of a module do not depend on the definition that names it. */
  ghost predicate OneNodePerModule(at: Place -> nat, report: Report) {
    forall d: nat, e: nat | d < |report.definitions| && e < |report.definitions|
        && report.definitions[d].inModule == report.definitions[e].inModule ::
      at(IndexPlace(d)) == at(IndexPlace(e)) && at(ParsePlace(d)) == at(ParsePlace(e))
  }

  /** Every place is in the graph. */
  ghost predicate Wired(g: Graph, at: Place -> nat, key: Fingerprint, report: Report) {
    && GraphOk(g) && ReportOk(report) && at(RootPlace) == |g.nodes| - 1
    && OneNodePerModule(at, report)
    && (forall place | PlaceOk(report, place) :: PlaceIs(g, at, key, report, place))
  }

  /** The current session knows the texts and parses of the modules, and nothing else. */
  ghost predicate KnowsParses(known: map<Query, nat>, report: Report) {
    && (forall m | m in report.modules :: ParseQuery(m) in known)
    && (forall q | q in known :: q.kind == SourceText || q.kind == ParseModule)
  }

  lemma KnownPlaces(known: map<Query, nat>, key: Fingerprint, report: Report, place: Place)
    requires KnowsParses(known, report) && ReportOk(report) && PlaceOk(report, place)
    ensures QueryAt(key, report, place) in known <==> place.ParsePlace?
  {
  }

  /** What a replay reads below a place is at places. */
  lemma {:induction false} VisibleIsPlace(g: Graph, at: Place -> nat, key: Fingerprint, report: Report,
      known: map<Query, nat>,
      place: Place, i: nat)
    returns (found: Place)
    requires Wired(g, at, key, report) && KnowsParses(known, report) && PlaceOk(report, place)
    requires Visible(g, known, at(place), i)
    ensures PlaceOk(report, found) && i == at(found)
    decreases at(place)
  {
    if i == at(place) {
      found := place;
    } else {
      assert PlaceIs(g, at, key, report, place);
      KnownPlaces(known, key, report, place);
      var k :| 0 <= k < |Deps(g, at(place))| && Visible(g, known, Deps(g, at(place))[k], i);
      found := VisibleIsPlace(g, at, key, report, known, PlaceBelow(report, place, k), i);
    }
  }

  /** A replay reads the place below a place it reads. */
  lemma PlaceBelowIsVisible(g: Graph, at: Place -> nat, key: Fingerprint, report: Report, known: map<Query, nat>,
      place: Place, k: nat)
    requires Wired(g, at, key, report) && KnowsParses(known, report) && PlaceOk(report, place)
    requires !place.ParsePlace? && k < Reads(report, place) && Visible(g, known, at(RootPlace), at(place))
    ensures Visible(g, known, at(RootPlace), at(PlaceBelow(report, place, k)))
  {
    assert PlaceIs(g, at, key, report, place);
    KnownPlaces(known, key, report, place);
    VisibleStep(g, known, at(RootPlace), at(place), k);
  }

  lemma CollectIsVisible(g: Graph, at: Place -> nat, key: Fingerprint, report: Report, known: map<Query, nat>)
    requires Wired(g, at, key, report) && KnowsParses(known, report)
    ensures Visible(g, known, at(RootPlace), at(CollectPlace))
  {
    assert PlaceIs(g, at, key, report, RootPlace);
    PlaceBelowIsVisible(g, at, key, report, known, RootPlace, 0);
  }

  lemma LastStageIsVisible(g: Graph, at: Place -> nat, key: Fingerprint, report: Report, known: map<Query, nat>,
      d: nat, last: Place)
    requires Wired(g, at, key, report) && KnowsParses(known, report) && d < |report.definitions|
    requires last == StagePlace(d, 5)
    ensures Visible(g, known, at(RootPlace), at(last))
  {
    CollectIsVisible(g, at, key, report, known);
    PlaceBelowIsVisible(g, at, key, report, known, CollectPlace, d + 1);
    assert PlaceBelow(report, CollectPlace, d + 1) == last;
  }

  /** A replay reads every stage of a reachable definition. */
  lemma {:induction false} StageIsVisible(g: Graph, at: Place -> nat, key: Fingerprint, report: Report,
      known: map<Query, nat>, d: nat, s: nat)
    requires Wired(g, at, key, report) && KnowsParses(known, report) && d < |report.definitions| && s < 6
    ensures Visible(g, known, at(RootPlace), at(StagePlace(d, s)))
    decreases 6 - s
  {
    if s == 5 {
      LastStageIsVisible(g, at, key, report, known, d, StagePlace(d, s));
    } else {
      StageIsVisible(g, at, key, report, known, d, s + 1);
      PlaceBelowIsVisible(g, at, key, report, known, StagePlace(d, s + 1), 0);
    }
  }

  /** A replay reads the parse of every module that owns a reachable definition. */
  lemma ParseIsVisible(g: Graph, at: Place -> nat, key: Fingerprint, report: Report, known: map<Query, nat>, d: nat)
    requires Wired(g, at, key, report) && KnowsParses(known, report) && d < |report.definitions|
    ensures Visible(g, known, at(RootPlace), at(ParsePlace(d)))
  {
    StageIsVisible(g, at, key, report, known, d, 0);
    PlaceBelowIsVisible(g, at, key, report, known, StagePlace(d, 0), 0);
    PlaceBelowIsVisible(g, at, key, report, known, IndexPlace(d), 0);
  }

  /** The stages of two definitions are never the same query. */
  lemma StagesAreDistinct(report: Report, d: nat, s: nat, e: nat, t: nat)
    requires ReportOk(report) && d < |report.definitions| && e < |report.definitions| && s < 6 && t < 6
    requires StageQuery(report.definitions[d], s) == StageQuery(report.definitions[e], t)
    ensures d == e && s == t
  {
    var a, b := report.definitions[d], report.definitions[e];
    assert s == t;
    assert Identity(a) == Identity(b) by {
      if s > 0 {
        assert Revision(a).parts[0] == Revision(b).parts[0];
      }
    }
    assert Identity(a).parts[0] == Identity(b).parts[0] && Identity(a).parts[1] == Identity(b).parts[1];
  }

  /** A query stands at one node only. */
  lemma PlacesAreDistinct(g: Graph, at: Place -> nat, key: Fingerprint, report: Report, x: Place, y: Place)
    requires Wired(g, at, key, report) && PlaceOk(report, x) && PlaceOk(report, y)
    requires QueryAt(key, report, x) == QueryAt(key, report, y)
    ensures at(x) == at(y)
  {
    if x.StagePlace? && y.StagePlace? {
      StagesAreDistinct(report, x.d, x.s, y.d, y.s);
    }
  }

  lemma WiredIsAgreeing(g: Graph, at: Place -> nat, key: Fingerprint, report: Report, known: map<Query, nat>)
    requires Wired(g, at, key, report) && KnowsParses(known, report)
    ensures Agreeing(g, known, at(RootPlace))
  {
    forall i: nat, j: nat | i < |g.nodes| && j < |g.nodes| && QueryOf(g, i) == QueryOf(g, j)
        && Visible(g, known, at(RootPlace), i) && Visible(g, known, at(RootPlace), j)
      ensures Alike(g, i, j)
    {
      var x := VisibleIsPlace(g, at, key, report, known, RootPlace, i);
      var y := VisibleIsPlace(g, at, key, report, known, RootPlace, j);
      assert PlaceIs(g, at, key, report, x) && PlaceIs(g, at, key, report, y);
      PlacesAreDistinct(g, at, key, report, x, y);
    }
  }

  // ---- a recorded report has all its places

  function NodeOfPlace(g: Graph, l: Layout, report: Report, place: Place): nat {
    match place
    case RootPlace => if g.nodes == [] then 0 else |g.nodes| - 1
    case CollectPlace => l.collect
    case ReachablePlace => l.reachable
    case StagePlace(d, s) => if d < |l.chains| && s < |l.chains[d]| then l.chains[d][s] else 0
    case IndexPlace(d) => if d < |report.definitions| && report.definitions[d].inModule in l.index
      then l.index[report.definitions[d].inModule] else 0
    case ParsePlace(d) => if d < |report.definitions| && report.definitions[d].inModule in l.parses
      then l.parses[report.definitions[d].inModule] else 0
  }

  function PlacesOf(g: Graph, l: Layout, report: Report): Place -> nat {
    place => NodeOfPlace(g, l, report, place)
  }

  lemma PlaceFromNode(g: Graph, at: Place -> nat, key: Fingerprint, report: Report, place: Place, deps: seq<nat>)
    requires PlaceOk(report, place) && NodeIs(g, at(place), QueryAt(key, report, place), deps)
    requires place.ParsePlace? || |deps| == Reads(report, place)
    requires !place.ParsePlace? ==> forall k :: 0 <= k < |deps| ==> deps[k] == at(PlaceBelow(report, place, k))
    ensures PlaceIs(g, at, key, report, place)
  {
  }

  lemma StageHasPlace(prior: Prior, g: Graph, l: Layout, key: Fingerprint, report: Report, d: nat, s: nat,
      at: Place -> nat)
    requires d < |report.definitions| == |l.chains| && ChainsOk(prior, g, l.index, l.chains, report.definitions)
    requires s < 6
    requires at == PlacesOf(g, l, report)
    ensures PlaceIs(g, at, key, report, StagePlace(d, s))
  {
    var definition := report.definitions[d];
    var index, chain := l.index[definition.inModule], l.chains[d];
    assert ChainOk(prior, g, index, chain, definition);
    assert Recorded(prior, g, chain[s], StageQuery(definition, s), [Below(index, chain, s)],
      StageResult(definition, s));
    assert Below(index, chain, s) == at(PlaceBelow(report, StagePlace(d, s), 0));
    PlaceFromNode(g, at, key, report, StagePlace(d, s), [Below(index, chain, s)]);
  }

  lemma ModuleHasPlaces(prior: Prior, g: Graph, l: Layout, key: Fingerprint, report: Report, d: nat, at: Place -> nat,
      lists: nat -> Fingerprint)
    requires GraphOk(g) && ParsesAt(g, l.parses) && IndexesOk(prior, g, l.parses, l.index, lists)
    requires d < |report.definitions| && report.definitions[d].inModule in l.index && at == PlacesOf(g, l, report)
    ensures PlaceIs(g, at, key, report, IndexPlace(d)) && PlaceIs(g, at, key, report, ParsePlace(d))
  {
    var m := report.definitions[d].inModule;
    assert Recorded(prior, g, l.index[m], IndexQuery(m), [l.parses[m]], lists(m));
    PlaceFromNode(g, at, key, report, IndexPlace(d), [l.parses[m]]);
    assert NodeOk(g, l.parses[m]);
    PlaceFromNode(g, at, key, report, ParsePlace(d), Deps(g, l.parses[m]));
  }

  lemma CollectHasPlace(g: Graph, l: Layout, key: Fingerprint, report: Report, at: Place -> nat, heads: seq<nat>)
    requires |heads| == |report.definitions| && at == PlacesOf(g, l, report)
    requires forall d :: 0 <= d < |heads| ==> heads[d] == at(StagePlace(d, 5))
    requires NodeIs(g, l.reachable, Query(ReachableDefinitions, report.entry), heads)
    requires NodeIs(g, l.collect, Query(CollectDiagnostics, report.entry), [l.reachable] + heads)
    ensures PlaceIs(g, at, key, report, ReachablePlace) && PlaceIs(g, at, key, report, CollectPlace)
  {
    PlaceFromNode(g, at, key, report, ReachablePlace, heads);
    PlaceFromNode(g, at, key, report, CollectPlace, [l.reachable] + heads);
  }

  lemma HeadsHavePlaces(g: Graph, l: Layout, report: Report, at: Place -> nat)
    requires at == PlacesOf(g, l, report) && forall k :: 0 <= k < |l.chains| ==> |l.chains[k]| == 6
    ensures forall d :: 0 <= d < |l.chains| ==> Heads(l.chains)[d] == at(StagePlace(d, 5))
  {
  }

  lemma TopHasPlaces(prior: Prior, g: Graph, l: Layout, key: Fingerprint, report: Report, at: Place -> nat)
    requires Checked(prior, g, l, key, report) && at == PlacesOf(g, l, report)
    ensures PlaceIs(g, at, key, report, RootPlace) && PlaceIs(g, at, key, report, CollectPlace)
    ensures PlaceIs(g, at, key, report, ReachablePlace)
  {
    PlaceFromNode(g, at, key, report, RootPlace, [l.collect]);
    HeadsHavePlaces(g, l, report, at);
    CollectHasPlace(g, l, key, report, at, Heads(l.chains));
  }

  lemma CheckedPlace(prior: Prior, g: Graph, l: Layout, key: Fingerprint, report: Report, at: Place -> nat,
      place: Place)
    requires Checked(prior, g, l, key, report) && at == PlacesOf(g, l, report) && PlaceOk(report, place)
    ensures PlaceIs(g, at, key, report, place)
  {
    match place
    case StagePlace(d, s) => StageHasPlace(prior, g, l, key, report, d, s, at);
    case IndexPlace(d) => ModuleHasPlaces(prior, g, l, key, report, d, at, ListsOf(report.definitions));
    case ParsePlace(d) => ModuleHasPlaces(prior, g, l, key, report, d, at, ListsOf(report.definitions));
    case _ => TopHasPlaces(prior, g, l, key, report, at);
  }

  lemma ModulesHaveOneNode(g: Graph, l: Layout, report: Report, at: Place -> nat)
    requires at == PlacesOf(g, l, report)
    ensures OneNodePerModule(at, report)
  {
  }

  lemma CheckedIsWired(prior: Prior, g: Graph, l: Layout, key: Fingerprint, report: Report, at: Place -> nat)
    requires Checked(prior, g, l, key, report) && at == PlacesOf(g, l, report)
    ensures Wired(g, at, key, report)
  {
    forall place | PlaceOk(report, place) ensures PlaceIs(g, at, key, report, place) {
      CheckedPlace(prior, g, l, key, report, at, place);
    }
    ModulesHaveOneNode(g, l, report, at);
  }

  // ---- a replay succeeds exactly when the owning modules kept their tokens

  /** Node `i` is the parse of module `m`, above its recorded text. */
  ghost predicate ParsedAt(tokens: Tokenizer, texts: Texts, g: Graph, m: nat, i: nat) {
    && i < |g.nodes| && QueryOf(g, i) == ParseQuery(m) && tokens(m, texts(m)) == Some(g.nodes[i].result)
    && NodeOk(g, i) && |Deps(g, i)| == 1 && g.nodes[Deps(g, i)[0]].result == texts(m)
  }

  ghost predicate ParsedFrom(tokens: Tokenizer, texts: Texts, g: Graph, parses: map<nat, nat>) {
    forall m | m in parses :: ParsedAt(tokens, texts, g, m, parses[m])
  }

  lemma ParsedStays(tokens: Tokenizer, texts: Texts, g: Graph, h: Graph, parses: map<nat, nat>)
    requires GraphExtends(g, h) && ParsedFrom(tokens, texts, g, parses)
    ensures ParsedFrom(tokens, texts, h, parses)
  {
    forall m | m in parses ensures ParsedAt(tokens, texts, h, m, parses[m]) {
      ExtendedNodes(g, h, parses[m]);
    }
  }

  /** The lookup finds the parse of each of these modules. */
  ghost predicate FindsParses(lookup: map<Query, nat>, parses: map<nat, nat>) {
    forall m | m in parses :: ParseQuery(m) in lookup && lookup[ParseQuery(m)] == parses[m]
  }

  /** The stored parse of the owner of definition `d` is that of the text before, and the current
      session knows the parse of its text now. */
  ghost predicate OwnerParsed(tokens: Tokenizer, before: Texts, texts: Texts, g: Graph, at: Place -> nat,
      report: Report, t: Replay, d: nat)
    requires d < |report.definitions|
  {
    var m, i := report.definitions[d].inModule, at(ParsePlace(d));
    && i < |g.nodes| && QueryOf(g, i) == ParseQuery(m) && tokens(m, before(m)) == Some(g.nodes[i].result)
    && ParseQuery(m) in t.known && t.known[ParseQuery(m)] < |t.start.nodes|
    && tokens(m, texts(m)) == Some(t.start.nodes[t.known[ParseQuery(m)]].result)
  }

  ghost predicate OwnersParsed(tokens: Tokenizer, before: Texts, texts: Texts, g: Graph, at: Place -> nat,
      report: Report, t: Replay) {
    forall d: nat | d < |report.definitions| :: OwnerParsed(tokens, before, texts, g, at, report, t, d)
  }

  lemma OwnerIsParsed(tokens: Tokenizer, before: Texts, texts: Texts, g: Graph, report: Report,
      recorded: map<nat, nat>, parses: map<nat, nat>, t: Replay, at: Place -> nat, d: nat)
    requires ParsedFrom(tokens, before, g, recorded) && FindsParses(t.known, parses)
    requires ParsedFrom(tokens, texts, t.start, parses)
    requires d < |report.definitions| && report.definitions[d].inModule in recorded
    requires report.definitions[d].inModule in parses
    requires at(ParsePlace(d)) == recorded[report.definitions[d].inModule]
    ensures OwnerParsed(tokens, before, texts, g, at, report, t, d)
  {
    var m := report.definitions[d].inModule;
    assert ParsedAt(tokens, before, g, m, recorded[m]) && ParsedAt(tokens, texts, t.start, m, parses[m]);
  }

  lemma ParsePlaceIs(g: Graph, l: Layout, report: Report, at: Place -> nat, d: nat)
    requires at == PlacesOf(g, l, report) && d < |report.definitions| && report.definitions[d].inModule in l.parses
    ensures at(ParsePlace(d)) == l.parses[report.definitions[d].inModule]
  {
  }

  ghost predicate OwnersIn(report: Report, parses: map<nat, nat>) {
    forall d: nat | d < |report.definitions| :: report.definitions[d].inModule in parses
  }

  lemma ModulesIncludeOwners(report: Report, parses: map<nat, nat>)
    requires ReportOk(report) && forall m | m in report.modules :: m in parses
    ensures OwnersIn(report, parses)
  {
  }

  lemma OwnersAreParsed(tokens: Tokenizer, before: Texts, texts: Texts, g: Graph, l: Layout, report: Report,
      parses: map<nat, nat>, t: Replay, at: Place -> nat)
    requires ParsedFrom(tokens, before, g, l.parses) && at == PlacesOf(g, l, report)
    requires OwnersIn(report, l.parses) && OwnersIn(report, parses)
    requires FindsParses(t.known, parses) && ParsedFrom(tokens, texts, t.start, parses)
    ensures OwnersParsed(tokens, before, texts, g, at, report, t)
  {
    forall d: nat | d < |report.definitions| ensures OwnerParsed(tokens, before, texts, g, at, report, t, d) {
      ParsePlaceIs(g, l, report, at, d);
      OwnerIsParsed(tokens, before, texts, g, report, l.parses, parses, t, at, d);
    }
  }

  /** What a replay finds changed is the parse of an owning module. */
  lemma ChangedIsParse(tokens: Tokenizer, before: Texts, texts: Texts, g: Graph, at: Place -> nat,
      key: Fingerprint, report: Report,
      t: Replay, i: nat)
    requires Wired(g, at, key, report) && KnowsParses(t.known, report)
    requires OwnersParsed(tokens, before, texts, g, at, report, t)
    requires i < |g.nodes| && Visible(g, t.known, at(RootPlace), i) && QueryOf(g, i) in t.known
    requires t.known[QueryOf(g, i)] < |t.start.nodes|
    requires t.start.nodes[t.known[QueryOf(g, i)]].result != g.nodes[i].result
    ensures !TokensKept(tokens, before, texts, report)
  {
    var place := VisibleIsPlace(g, at, key, report, t.known, RootPlace, i);
    assert PlaceIs(g, at, key, report, place);
    KnownPlaces(t.known, key, report, place);
    assert OwnerParsed(tokens, before, texts, g, at, report, t, place.d);
  }

  /** Other tokens of an owning module are a change the replay reads. */
  lemma ParseIsChanged(tokens: Tokenizer, before: Texts, texts: Texts, g: Graph, at: Place -> nat,
      key: Fingerprint, report: Report,
      t: Replay, d: nat)
    requires Wired(g, at, key, report) && KnowsParses(t.known, report)
    requires OwnersParsed(tokens, before, texts, g, at, report, t)
    requires d < |report.definitions| && t.root == at(RootPlace)
    requires tokens(report.definitions[d].inModule, before(report.definitions[d].inModule))
      != tokens(report.definitions[d].inModule, texts(report.definitions[d].inModule))
    ensures Changed(g, t)
  {
    ParseIsVisible(g, at, key, report, t.known, d);
    assert OwnerParsed(tokens, before, texts, g, at, report, t, d);
  }

  /** A replay of a stored check succeeds if and only if every module that owns a reachable
      definition has the tokens it had. */
  lemma ReplayDecides(tokens: Tokenizer, before: Texts, texts: Texts, g: Graph, at: Place -> nat, key: Fingerprint,
      report: Report,
      t: Replay, c: Graph, lookup: map<Query, nat>, success: bool)
    requires Wired(g, at, key, report) && KnowsParses(t.known, report)
    requires OwnersParsed(tokens, before, texts, g, at, report, t)
    requires ReplayOk(g, t, c, lookup) && LookupOk(c, lookup) && t.root == at(RootPlace)
    requires if success then t.root in t.mapped else ReplayBlocked(g, t, c, lookup)
    ensures success <==> TokensKept(tokens, before, texts, report)
  {
    WiredIsAgreeing(g, at, key, report, t.known);
    ReplayExact(g, t, c, lookup, success);
    if Changed(g, t) {
      var i: nat :| i < |g.nodes| && Visible(g, t.known, t.root, i) && QueryOf(g, i) in t.known
        && t.known[QueryOf(g, i)] < |t.start.nodes| &&
          t.start.nodes[t.known[QueryOf(g, i)]].result != g.nodes[i].result;
      ChangedIsParse(tokens, before, texts, g, at, key, report, t, i);
    } else if !TokensKept(tokens, before, texts, report) {
      var d: nat :| d < |report.definitions| && tokens(report.definitions[d].inModule,
        before(report.definitions[d].inModule))
        != tokens(report.definitions[d].inModule, texts(report.definitions[d].inModule));
      ParseIsChanged(tokens, before, texts, g, at, key, report, t, d);
    }
  }

  /** A replay copies no parse: all it could copy are known. */
  lemma ReplayGrows(g: Graph, at: Place -> nat, key: Fingerprint, report: Report, t: Replay, c: Graph,
      lookup: map<Query, nat>)
    requires Wired(g, at, key, report) && KnowsParses(t.known, report)
    requires ReplayOk(g, t, c, lookup) && t.root == at(RootPlace)
    ensures Grows(t.start, c)
  {
    forall j | |t.start.nodes| <= j < |c.nodes| ensures c.nodes[j].kind != ParseModule {
      CopyIsNoParse(g, at, key, report, t, c, t.origin[j], j);
    }
  }

  lemma CopyIsNoParse(g: Graph, at: Place -> nat, key: Fingerprint, report: Report, t: Replay, c: Graph, i: nat, j: nat)
    requires Wired(g, at, key, report) && KnowsParses(t.known, report)
    requires CopyOf(g, t, c, i, j) && t.root == at(RootPlace)
    ensures c.nodes[j].kind != ParseModule
  {
    var place := VisibleIsPlace(g, at, key, report, t.known, RootPlace, i);
    assert PlaceIs(g, at, key, report, place);
    KnownPlaces(t.known, key, report, place);
  }

  // ---- texts and parses

  /** A parse was recorded above the text it read, with that text's tokens. */
  ghost predicate ParseHonest(tokens: Tokenizer, g: Graph, i: nat)
    requires i < |g.nodes|
  {
    NodeOk(g, i) && (g.nodes[i].kind == ParseModule ==>
      && g.nodes[i].key.Value? && |Deps(g, i)| == 1 && QueryOf(g, Deps(g, i)[0]) == SourceQuery(g.nodes[i].key.content)
      && tokens(g.nodes[i].key.content, g.nodes[Deps(g, i)[0]].result) == Some(g.nodes[i].result))
  }

  ghost predicate ParsesHonest(tokens: Tokenizer, g: Graph) {
    forall i | 0 <= i < |g.nodes| :: ParseHonest(tokens, g, i)
  }

  lemma HonestStays(tokens: Tokenizer, g: Graph, h: Graph, i: nat)
    requires GraphExtends(g, h) && i < |g.nodes| && ParseHonest(tokens, g, i)
    ensures ParseHonest(tokens, h, i)
  {
    ExtendedNodes(g, h, i);
  }

  lemma HonestGrows(tokens: Tokenizer, g: Graph, h: Graph)
    requires ParsesHonest(tokens, g) && Grows(g, h) && GraphOk(h)
    ensures ParsesHonest(tokens, h)
  {
    forall i | 0 <= i < |h.nodes| ensures ParseHonest(tokens, h, i) {
      if i < |g.nodes| {
        HonestStays(tokens, g, h, i);
      } else {
        assert NodeOk(h, i);
      }
    }
  }

  /** Recording the text of a module and then its parse. */
  lemma ParsedHonestly(tokens: Tokenizer, g: Graph, m: nat, text: Fingerprint, parsed: Fingerprint, g1: Graph,
      g2: Graph)
    requires ParsesHonest(tokens, g) && tokens(m, text) == Some(parsed)
    requires g1 == Appended(g, SourceText, Value(m), text, [])
    requires g2 == Appended(g1, ParseModule, Value(m), parsed, [|g.nodes|])
    ensures ParsesHonest(tokens, g2) && GraphExtends(g, g2)
    ensures NodeOk(g2, |g1.nodes|) && Deps(g2, |g1.nodes|) == [|g.nodes|]
  {
    assert GraphOk(g) by {
      forall i | 0 <= i < |g.nodes| ensures NodeOk(g, i) {
        assert ParseHonest(tokens, g, i);
      }
    }
    AppendedOk(g, SourceText, Value(m), text, []);
    HonestGrows(tokens, g, g1);
    AppendedOk(g1, ParseModule, Value(m), parsed, [|g.nodes|]);
    forall i | 0 <= i < |g2.nodes| ensures ParseHonest(tokens, g2, i) {
      if i < |g1.nodes| {
        HonestStays(tokens, g1, g2, i);
      }
    }
  }

  /** A parse reused from the session before is that of the same text. */
  lemma ReusedParse(tokens: Tokenizer, p: Graph, i: nat, m: nat, c: Graph, source: nat)
    requires ParsesHonest(tokens, p) && i < |p.nodes| && QueryOf(p, i) == ParseQuery(m) && NodeOk(p, i)
    requires source < |c.nodes| && SameAnswers(p, Deps(p, i), c, [source])
    ensures tokens(m, c.nodes[source].result) == Some(p.nodes[i].result)
  {
    assert ParseHonest(tokens, p, i) && SameAnswer(p, Deps(p, i)[0], c, [source][0]);
  }

  /** A recorded parse is that of the module's current text. */
  ghost predicate ParseNow(tokens: Tokenizer, texts: Texts, g: Graph, i: nat)
    requires i < |g.nodes|
  {
    g.nodes[i].kind == ParseModule ==>
      g.nodes[i].key.Value? && tokens(g.nodes[i].key.content, texts(g.nodes[i].key.content)) == Some(g.nodes[i].result)
  }

  ghost predicate ParsesNow(tokens: Tokenizer, texts: Texts, g: Graph) {
    forall i | 0 <= i < |g.nodes| :: ParseNow(tokens, texts, g, i)
  }

  lemma NowGrows(tokens: Tokenizer, texts: Texts, g: Graph, h: Graph)
    requires ParsesNow(tokens, texts, g) && Grows(g, h)
    ensures ParsesNow(tokens, texts, h)
  {
    forall i | 0 <= i < |h.nodes| ensures ParseNow(tokens, texts, h, i) {
      if i < |g.nodes| {
        assert ParseNow(tokens, texts, g, i) && h.nodes[i] == g.nodes[i];
      }
    }
  }

  /** What the session knows when some modules were queried: their texts and parses, and nothing
      else about them. */
  ghost predicate Known(tokens: Tokenizer, texts: Texts, g: Graph, lookup: map<Query, nat>, parses: map<nat, nat>) {
    && KeptOk(g) && ParsesHonest(tokens, g) && ParsesNow(tokens, texts, g)
    && ParsedFrom(tokens, texts, g, parses) && FindsParses(lookup, parses)
  }

  ghost predicate OnlyTexts(lookup: map<Query, nat>) {
    forall q | q in lookup :: q.kind == SourceText || q.kind == ParseModule
  }

  lemma QueriedIsNow(tokens: Tokenizer, texts: Texts, g: Graph, m: nat, parsed: Fingerprint, g1: Graph, g2: Graph)
    requires ParsesNow(tokens, texts, g) && tokens(m, texts(m)) == Some(parsed)
    requires g1 == Appended(g, SourceText, Value(m), texts(m), [])
    requires g2 == Appended(g1, ParseModule, Value(m), parsed, [|g.nodes|])
    ensures ParsesNow(tokens, texts, g2)
  {
    NowGrows(tokens, texts, g, g1);
    forall i | 0 <= i < |g2.nodes| ensures ParseNow(tokens, texts, g2, i) {
      if i < |g1.nodes| {
        assert ParseNow(tokens, texts, g1, i);
      }
    }
  }

  /** Recording the text of a module and its parse makes the module known. */
  lemma QueriedIsKnown(tokens: Tokenizer, texts: Texts, g: Graph, lookup: map<Query, nat>, parses: map<nat, nat>,
      m: nat, parsed: Fingerprint, g1: Graph, g2: Graph)
    requires Known(tokens, texts, g, lookup, parses) && tokens(m, texts(m)) == Some(parsed)
    requires g1 == Appended(g, SourceText, Value(m), texts(m), [])
    requires g2 == Appended(g1, ParseModule, Value(m), parsed, [|g.nodes|])
    ensures Known(tokens, texts, g2, lookup[SourceQuery(m) := |g.nodes|][ParseQuery(m) := |g1.nodes|],
      parses[m := |g1.nodes|])
    ensures ParsedAt(tokens, texts, g2, m, |g1.nodes|)
  {
    PlainIsKept(g, SourceText, Value(m), texts(m), []);
    PlainIsKept(g1, ParseModule, Value(m), parsed, [|g.nodes|]);
    ParsedHonestly(tokens, g, m, texts(m), parsed, g1, g2);
    QueriedIsNow(tokens, texts, g, m, parsed, g1, g2);
    ParsedStays(tokens, texts, g, g2, parses);
  }

  /** Record the text of a module and its parse; a text without tokens is an error. */
  method QueryBundleModule(session: QuerySession, m: nat, texts: Texts, tokens: Tokenizer,
      ghost parses: map<nat, nat>)
    returns (r: Option<nat>)
    requires session.Valid() && ParsesHonest(tokens, session.previous)
    requires Known(tokens, texts, session.Current(), session.currentLookup, parses)
    modifies session
    ensures session.Valid() && session.previousLookup == old(session.previousLookup)
    ensures r.Some? <==> tokens(m, texts(m)).Some?
    ensures r.Some? ==>
      && Known(tokens, texts, session.Current(), session.currentLookup, parses[m := r.value])
      && ParsedAt(tokens, texts, session.Current(), m, r.value)
      && GraphExtends(old(session.Current()), session.Current())
      && session.currentLookup ==
        old(session.currentLookup)[SourceQuery(m) := |old(session.nodes)|][ParseQuery(m) := r.value]
  {
    ghost var g, lookup := session.Current(), session.currentLookup;
    var source := session.Append(SourceText, Value(m), texts(m), []);
    ghost var g1 := session.Current();
    var reused := session.TryMarkGreen(ParseModule, Value(m), [source]);
    if reused.Some? {
      ReusedParse(tokens, session.previous, session.previousLookup[ParseQuery(m)], m, g1, source);
      QueriedIsKnown(tokens, texts, g, lookup, parses, m, reused.value.1, g1, session.Current());
      return Some(reused.value.0);
    }
    var parsed := tokens(m, texts(m));
    if parsed.None? {
      return None;
    }
    var node := session.AppendExecuted(ParseModule, Value(m), parsed.value, [source]);
    QueriedIsKnown(tokens, texts, g, lookup, parses, m, parsed.value, g1, session.Current());
    return Some(node);
  }

  /** Query the modules that were not queried yet, in order. */
  method QueryBundleModules(session: QuerySession, names: seq<nat>, known: map<nat, nat>, texts: Texts,
      tokens: Tokenizer)
    returns (ok: bool, parses: map<nat, nat>)
    requires session.Valid() && ParsesHonest(tokens, session.previous)
    requires Known(tokens, texts, session.Current(), session.currentLookup, known)
    modifies session
    ensures session.Valid() && session.previousLookup == old(session.previousLookup)
    ensures ok <==> AllTokenise(tokens, texts, names)
    ensures ok ==>
      && Known(tokens, texts, session.Current(), session.currentLookup, parses) &&
        (forall m | m in names :: m in parses)
      && (old(OnlyTexts(session.currentLookup)) ==> OnlyTexts(session.currentLookup))
  {
    parses := known;
    ghost var plain := OnlyTexts(session.currentLookup);
    for k := 0 to |names|
      invariant session.Valid() && session.previousLookup == old(session.previousLookup)
      invariant Known(tokens, texts, session.Current(), session.currentLookup, parses)
      invariant QueriedUpTo(names, k, parses)
      invariant plain ==> OnlyTexts(session.currentLookup)
    {
      var next;
      ok, next := QueryUnlessKnown(session, names[k], parses, texts, tokens);
      if !ok {
        return false, parses;
      }
      QueriedNext(names, k, parses, next);
      parses := next;
    }
    NamesTokenise(tokens, texts, session.Current(), parses, names);
    ok := true;
  }

  ghost predicate QueriedUpTo(names: seq<nat>, k: nat, parses: map<nat, nat>) {
    forall j :: 0 <= j < k && j < |names| ==> names[j] in parses.Keys
  }

  lemma QueriedNext(names: seq<nat>, k: nat, parses: map<nat, nat>, next: map<nat, nat>)
    requires k < |names| && QueriedUpTo(names, k, parses) && next.Keys == parses.Keys + {names[k]}
    ensures QueriedUpTo(names, k + 1, next)
  {
  }

  lemma NamesTokenise(tokens: Tokenizer, texts: Texts, g: Graph, parses: map<nat, nat>, names: seq<nat>)
    requires ParsedFrom(tokens, texts, g, parses) && QueriedUpTo(names, |names|, parses)
    ensures AllTokenise(tokens, texts, names) && forall m | m in names :: m in parses
  {
    assert forall m | m in names :: m in parses.Keys;
    forall m | m in names ensures tokens(m, texts(m)).Some? {
      assert ParsedAt(tokens, texts, g, m, parses[m]);
    }
  }

  /** Query a module unless it was queried before. */
  method QueryUnlessKnown(session: QuerySession, m: nat, known: map<nat, nat>, texts: Texts, tokens: Tokenizer)
    returns (ok: bool, parses: map<nat, nat>)
    requires session.Valid() && ParsesHonest(tokens, session.previous)
    requires Known(tokens, texts, session.Current(), session.currentLookup, known)
    modifies session
    ensures session.Valid() && session.previousLookup == old(session.previousLookup)
    ensures ok <==> tokens(m, texts(m)).Some?
    ensures ok ==>
      && Known(tokens, texts, session.Current(), session.currentLookup, parses) && parses.Keys == known.Keys + {m}
      && (old(OnlyTexts(session.currentLookup)) ==> OnlyTexts(session.currentLookup))
  {
    if m in known {
      assert ParsedAt(tokens, texts, session.Current(), m, known[m]);
      return true, known;
    }
    var node := QueryBundleModule(session, m, texts, tokens, known);
    if node.None? {
      return false, known;
    }
    return true, known[m := node.value];
  }

  // ---- one session

  /** What a session publishes: its graph, and the report it was checked for. */
  datatype Stored = Stored(graph: Graph, key: Fingerprint, report: Report)

  /** The published graph records the report of these texts. */
  ghost predicate StoredAt(tokens: Tokenizer, texts: Texts, st: Stored, prior: Prior, l: Layout) {
    && Checked(prior, st.graph, l, st.key, st.report) && ParsedFrom(tokens, texts, st.graph, l.parses)
    && (forall m | m in st.report.modules :: m in l.parses)
    && st.graph.nodes[|st.graph.nodes| - 1].result == ReportResult(st.report)
  }

  /** The queries of the report stand in order before the check. */
  ghost predicate StoredInOrder(st: Stored, l: Layout) {
    InOrder(l, st.report) && |st.graph.nodes| == l.collect + 2
  }

  /** Below the queries of the report are only texts and parses. */
  ghost predicate TextsBelow(g: Graph, first: nat) {
    forall i | 0 <= i < |g.nodes| && i < first :: g.nodes[i].kind == SourceText || g.nodes[i].kind == ParseModule
  }

  /** The published graph was recorded by a session that loaded `loaded`; one that `began` with the
      check and tried no replay recorded only texts and parses before. */
  ghost predicate RecordedAt(tokens: Tokenizer, texts: Texts, st: Stored, prior: Prior, l: Layout, loaded: Graph,
      began: bool) {
    && prior.graph == loaded && PriorOk(prior) && StoredAt(tokens, texts, st, prior, l) && StoredInOrder(st, l)
    && (began ==> TextsBelow(st.graph, l.first))
  }

  ghost predicate RecordedOver(tokens: Tokenizer, texts: Texts, st: Stored, loaded: Graph, began: bool) {
    exists prior, l :: RecordedAt(tokens, texts, st, prior, l, loaded, began)
  }

  /** The graph a session loads. */
  function GraphOf(stored: Option<Stored>): Graph {
    if stored.Some? then stored.value.graph else Graph([], [])
  }

  ghost predicate StoredOk(tokens: Tokenizer, texts: Texts, st: Stored) {
    && KeptOk(st.graph) && ParsesHonest(tokens, st.graph) && ParsesNow(tokens, texts, st.graph)
    && exists prior, l :: StoredAt(tokens, texts, st, prior, l)
  }

  /** The published state as `CheckSession` sees it. */
  ghost function CacheOf(stored: Option<Stored>, texts: Texts): Cache {
    if stored.None? then Empty else Cached(stored.value.key, texts, stored.value.report)
  }

  /** What the replay of a stored check leaves behind. */
  lemma ReplayedStored(tokens: Tokenizer, before: Texts, texts: Texts, st: Stored, prior: Prior, l: Layout,
      parses: map<nat, nat>,
      t: Replay, c: Graph, lookup: map<Query, nat>, success: bool)
    requires StoredAt(tokens, before, st, prior, l) && KeptOk(st.graph) && t.root == |st.graph.nodes| - 1
    requires Known(tokens, texts, t.start, t.known,
      parses) && OnlyTexts(t.known) && forall m | m in st.report.modules :: m in parses
    requires ReplayOk(st.graph, t, c, lookup) && LookupOk(c, lookup) && GraphOk(c)
    requires if success then t.root in t.mapped else ReplayBlocked(st.graph, t, c, lookup)
    ensures success <==> TokensKept(tokens, before, texts, st.report)
    ensures Known(tokens, texts, c, lookup, parses)
  {
    var at := PlacesOf(st.graph, l, st.report);
    CheckedIsWired(prior, st.graph, l, st.key, st.report, at);
    ModulesIncludeOwners(st.report, l.parses);
    ModulesIncludeOwners(st.report, parses);
    OwnersAreParsed(tokens, before, texts, st.graph, l, st.report, parses, t, at);
    ReplayDecides(tokens, before, texts, st.graph, at, st.key, st.report, t, c, lookup, success);
    ReplayGrows(st.graph, at, st.key, st.report, t, c, lookup);
    HonestGrows(tokens, t.start, c);
    NowGrows(tokens, texts, t.start, c);
    ReplayIsKept(st.graph, t, c, lookup);
    ParsedStays(tokens, texts, t.start, c, parses);
  }

  ghost predicate Findable(st: Stored, lookup: map<Query, nat>) {
    Query(CheckEntry, st.key) in lookup && lookup[Query(CheckEntry, st.key)] == |st.graph.nodes| - 1
  }

  /** Try to replay the stored check; a stored report that cannot be read does not count. */
  method ReplayStored(session: QuerySession, st: Stored, ghost before: Texts, texts: Texts, tokens: Tokenizer,
      readable: bool,
      ghost parses: map<nat, nat>)
    returns (hit: bool)
    requires session.Valid() && session.previous == st.graph && StoredOk(tokens, before, st)
    requires Findable(st, session.previousLookup)
    requires Known(tokens, texts, session.Current(), session.currentLookup, parses) && OnlyTexts(session.currentLookup)
    requires forall m | m in st.report.modules :: m in parses
    modifies session
    ensures session.Valid() && Known(tokens, texts, session.Current(), session.currentLookup, parses)
    ensures hit <==> readable && TokensKept(tokens, before, texts, st.report)
  {
    ghost var prior, l :| StoredAt(tokens, before, st, prior, l);
    var r;
    ghost var trace;
    r, trace := session.TryReplayGreen(CheckEntry, st.key);
    ReplayedStored(tokens, before, texts, st, prior, l, parses, trace, session.Current(), session.currentLookup,
      r.Some?);
    hit := r.Some? && readable && r.value == ReportResult(st.report);
  }

  /** Query the modules of the stored report and try to replay its check. */
  method TryCached(session: QuerySession, st: Stored, ghost before: Texts, texts: Texts, tokens: Tokenizer,
      readable: bool)
    returns (ok: bool, hit: bool, parses: map<nat, nat>)
    requires session.Valid() && session.previous == st.graph && session.Current() == Graph([], [])
    requires session.currentLookup == map[]
    requires StoredOk(tokens, before, st) && Findable(st, session.previousLookup)
    modifies session
    ensures session.Valid()
    ensures ok <==> AllTokenise(tokens, texts, st.report.modules)
    ensures ok ==> Known(tokens, texts, session.Current(), session.currentLookup, parses)
    ensures ok ==> (hit <==> readable && TokensKept(tokens, before, texts, st.report))
  {
    hit := false;
    ok, parses := QueryBundleModules(session, st.report.modules, map[], texts, tokens);
    if ok {
      hit := ReplayStored(session, st, before, texts, tokens, readable, parses);
    }
  }

  /** Record the check of a new report and publish it. */
  method RecordCheck(session: QuerySession, key: Fingerprint, report: Report, known: map<nat, nat>, texts: Texts,
      tokens: Tokenizer, ghost began: bool)
    returns (st: Stored)
    requires began ==> OnlyTexts(session.currentLookup)
    requires session.Valid() && ParsesHonest(tokens, session.previous) && KeptOk(session.previous)
    requires ReportOk(report) && AllTokenise(tokens, texts, report.modules)
    requires Known(tokens, texts, session.Current(), session.currentLookup, known)
    modifies session
    ensures st.key == key && st.report == report && StoredOk(tokens, texts, st)
    ensures RecordedOver(tokens, texts, st, session.previous, began)
  {
    var ok, parses := QueryBundleModules(session, report.modules, known, texts, tokens);
    ghost var g0, lookup := session.Current(), session.currentLookup;
    var collect;
    ghost var l;
    collect, l := SemanticGraph(session, report, parses);
    ghost var prior, g1 := Prior(session.previous, session.previousLookup), session.Current();
    var node := session.AppendExecuted(CheckEntry, key, ReportResult(report), [collect]);
    st := Stored(session.Current(), key, report);
    RecordedCheck(tokens, texts, prior, g0, g1, st, l);
    RecordedIsKnown(tokens, texts, prior, g0, g1, st, l);
    LookupIsTexts(g0, lookup, st.graph);
    assert RecordedAt(tokens, texts, st, prior, l, session.previous, began);
  }

  lemma RecordedCheck(tokens: Tokenizer, texts: Texts, prior: Prior, g0: Graph, g1: Graph, st: Stored, l: Layout)
    requires ParsesHonest(tokens, g0) && ParsedFrom(tokens, texts, g0, l.parses) && Grows(g0, g1) && GraphOk(g1)
    requires LayoutOk(prior, g1, l, st.report) && ReportOk(st.report) && forall m | m in st.report.modules ::
      m in l.parses
    requires st.graph == Appended(g1, CheckEntry, st.key, ReportResult(st.report), [l.collect])
    ensures ParsesHonest(tokens, st.graph) && StoredAt(tokens, texts, st, prior, l)
  {
    AppendedOk(g1, CheckEntry, st.key, ReportResult(st.report), [l.collect]);
    GrowsFurther(g0, g1, st.graph);
    HonestGrows(tokens, g0, st.graph);
    ParsedStays(tokens, texts, g0, st.graph, l.parses);
    LayoutStays(prior, g1, st.graph, l, st.report);
  }

  lemma LookupIsTexts(g: Graph, lookup: map<Query, nat>, h: Graph)
    requires LookupOk(g, lookup) && g.nodes <= h.nodes
    ensures OnlyTexts(lookup) ==> TextsBelow(h, |g.nodes|)
  {
    forall i | 0 <= i < |g.nodes| ensures h.nodes[i] == g.nodes[i] && QueryOf(g, i) in lookup {
    }
  }

  lemma RecordedIsKnown(tokens: Tokenizer, texts: Texts, prior: Prior, g0: Graph, g1: Graph, st: Stored, l: Layout)
    requires KeptOk(prior.graph) && KeptOk(g0) && ParsesNow(tokens, texts, g0) && Grows(g0, g1)
    requires LayoutOk(prior, g1, l, st.report) && InOrder(l, st.report)
    requires l.first == |g0.nodes| && |g1.nodes| == l.collect + 1
    requires st.graph == Appended(g1, CheckEntry, st.key, ReportResult(st.report), [l.collect])
    ensures KeptOk(st.graph) && ParsesNow(tokens, texts, st.graph)
  {
    LayoutIsKept(prior, g0, g1, l, st.report);
    PlainIsKept(g1, CheckEntry, st.key, ReportResult(st.report), [l.collect]);
    NowGrows(tokens, texts, g0, g1);
    NowGrows(tokens, texts, g1, st.graph);
  }

  lemma LayoutStays(prior: Prior, g: Graph, h: Graph, l: Layout, report: Report)
    requires GraphExtends(g, h) && LayoutOk(prior, g, l, report)
    ensures LayoutOk(prior, h, l, report)
  {
    IndexesStay(prior, g, h, l.parses, l.index, ListsOf(report.definitions));
    ChainsStay(prior, g, h, l.index, l.chains, report.definitions);
    RecordedStays(prior, g, h, l.reachable, Query(ReachableDefinitions, report.entry), Heads(l.chains),
      Reached(report.definitions));
    RecordedStays(prior, g, h, l.collect, Query(CollectDiagnostics, report.entry), [l.reachable] + Heads(l.chains),
      report.diagnostics);
  }

  /** Check an entry and publish its report, unless the check fails. */
  method CheckAnew(session: QuerySession, key: Fingerprint, check: Check, known: map<nat, nat>, texts: Texts,
      tokens: Tokenizer, ghost began: bool)
    returns (answer: Option<Report>, published: Option<Stored>)
    requires session.Valid() && ParsesHonest(tokens, session.previous) && KeptOk(session.previous)
    requires Known(tokens, texts, session.Current(), session.currentLookup, known)
    requires CheckOk(tokens, check) && (began ==> OnlyTexts(session.currentLookup))
    modifies session
    ensures answer == check(key, texts).report
    ensures published.Some? <==> answer.Some?
    ensures published.Some? ==>
      && published.value.key == key && published.value.report == answer.value
      && StoredOk(tokens, texts, published.value)
      && RecordedOver(tokens, texts, published.value, session.previous, began)
  {
    var outcome := check(key, texts);
    assert OutcomeOk(tokens, texts, outcome);
    if outcome.report.None? {
      return None, None;
    }
    var st := RecordCheck(session, key, outcome.report.value, known, texts, tokens, began);
    return outcome.report, Some(st);
  }

  /** Check an entry with the cache: the answer and the published state are those of the session
      of `CheckSession`. Without a new state the published one stays. */
  method CheckBundle(stored: Option<Stored>, ghost before: Texts, key: Fingerprint, check: Check, texts: Texts,
      tokens: Tokenizer, readable: bool)
    returns (answer: Option<Report>, published: Option<Stored>)
    requires CheckOk(tokens, check) && (stored.Some? ==> StoredOk(tokens, before, stored.value))
    ensures (answer, CacheOf(if published.Some? then published else stored, if published.Some? then texts else before))
      == Session(tokens, check, CacheOf(stored, before), key, texts, readable)
    ensures published.Some? ==>
      && StoredOk(tokens, texts, published.value)
      && RecordedOver(tokens, texts, published.value, GraphOf(stored), stored.None? || stored.value.key != key)
  {
    var session := new QuerySession(GraphOf(stored));
    var parses: map<nat, nat> := map[];
    ghost var began := stored.None? || stored.value.key != key;
    if stored.Some? && stored.value.key == key {
      var ok, hit;
      LastIsFound(tokens, before, stored.value, session.previousLookup);
      ok, hit, parses := TryCached(session, stored.value, before, texts, tokens, readable);
      if !ok {
        return None, None;
      }
      if hit {
        return Some(stored.value.report), None;
      }
    }
    answer, published := CheckAnew(session, key, check, parses, texts, tokens, began);
  }

  /** The check was recorded last, so that is where it is found. */
  lemma LastIsFound(tokens: Tokenizer, texts: Texts, st: Stored, lookup: map<Query, nat>)
    requires StoredOk(tokens, texts, st) && LookupOk(st.graph, lookup)
    requires forall i, j :: 0 <= i < j < |st.graph.nodes| && QueryOf(st.graph, i) == QueryOf(st.graph, j) ==>
      lookup[QueryOf(st.graph, i)] >= j
    ensures Query(CheckEntry, st.key) in lookup && lookup[Query(CheckEntry, st.key)] == |st.graph.nodes| - 1
  {
    var prior, l :| StoredAt(tokens, texts, st, prior, l);
    var last := |st.graph.nodes| - 1;
    assert QueryOf(st.graph, last) == Query(CheckEntry, st.key);
  }

  // ---- the condition under which a stored check may be replayed, read off its graph

  /** The texts recorded below the parses of the stored report's modules are these. */
  ghost predicate TextsRecorded(st: Stored, l: Layout, texts: Texts) {
    forall m | m in st.report.modules ::
      m in l.parses && l.parses[m] < |st.graph.nodes| && NodeOk(st.graph, l.parses[m]) &&
      |Deps(st.graph, l.parses[m])| == 1 && st.graph.nodes[Deps(st.graph, l.parses[m])[0]].result == texts(m)
  }

  lemma RecordedTextsAgree(tokens: Tokenizer, before: Texts, texts: Texts, st: Stored, prior: Prior, l: Layout)
    requires StoredAt(tokens, before, st, prior, l)
    ensures TextsRecorded(st, l, texts) <==> Agree(before, texts, st.report.modules)
  {
    forall m | m in st.report.modules ensures ParsedAt(tokens, before, st.graph, m, l.parses[m]) {
      assert m in l.parses;
    }
  }

  /** When every module that was looked up was parsed: every check with the stored report is answered
      as a clean check would, if and only if the recorded texts of all its modules are the current
      ones, or the modules still tokenise and one that owns a definition has other tokens. */
  lemma StoredAnswersCleanlyExactly(tokens: Tokenizer, before: Texts, texts: Texts, st: Stored, prior: Prior, l: Layout,
      o: Outcome)
    requires StoredAt(tokens, before, st, prior, l) && OutcomeOk(tokens, before, o) && o.report == Some(st.report)
    requires forall m | m in o.looked :: m in st.report.modules
    ensures (forall check: Check :: Found(tokens, check, st.key, before, o) ==>
        AnswersCleanly(tokens, check, Cached(st.key, before, st.report), st.key, texts))
      <==> (TextsRecorded(st, l, texts)
        || (AllTokenise(tokens, texts, st.report.modules) && !TokensKept(tokens, before, texts, st.report)))
  {
    AnswersCleanlyExactly(tokens, st.key, before, texts, o);
    RecordedTextsAgree(tokens, before, texts, st, prior, l);
    assert Agree(before, texts, o.looked) <==> Agree(before, texts, st.report.modules);
  }
}
