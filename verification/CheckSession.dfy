/** Checking an entry again and again with a cache: which answers a run of sessions gives,
    and exactly when a cached answer is the one a clean check would give.

    A check looks up source texts and answers with a report. The cache compares less than
    that: for the modules that own a definition of the report the tokens without their
    positions, and for the others nothing. */
module CheckSession {
  import opened Common
  import opened Incremental

  /** The text of every module in one session; a module without a source has a text of its own. */
  type Texts = nat -> Fingerprint

  /** The fingerprint of the tokens of a module's text, without positions, if it has tokens. */
  type Tokenizer = (nat, Fingerprint) -> Option<Fingerprint>

  /** A reachable definition with the fingerprints of its signature and of the parts of its source
      graph: the nodes with their anchors and values, and the facts found about them. */
  datatype Definition = Definition(inModule: nat, name: nat, signature: Fingerprint, nodes: Fingerprint,
    resolutions: Fingerprint, types: Fingerprint, availability: Fingerprint, roles: Fingerprint)

  /** The modules are the ones that were parsed, also for their constants alone. */
  datatype Report = Report(entry: Fingerprint, modules: seq<nat>, definitions: seq<Definition>,
    diagnostics: Fingerprint)

  /** The modules whose texts a check looked up, found or not, and its report unless it failed. */
  datatype Outcome = Outcome(looked: seq<nat>, report: Option<Report>)

  type Check = (Fingerprint, Texts) -> Outcome

  predicate Agree(t: Texts, u: Texts, modules: seq<nat>) {
    forall m | m in modules :: t(m) == u(m)
  }

  predicate AllTokenise(tokens: Tokenizer, t: Texts, modules: seq<nat>) {
    forall m | m in modules :: tokens(m, t(m)).Some?
  }

  /** Definitions have names of their own and live in parsed modules. */
  predicate ReportOk(report: Report) {
    && (forall i, j :: 0 <= i < j < |report.modules| ==> report.modules[i] != report.modules[j])
    && (forall i :: 0 <= i < |report.definitions| ==> report.definitions[i].inModule in report.modules)
    && (forall i, j :: 0 <= i < j < |report.definitions| ==>
      (report.definitions[i].inModule, report.definitions[i].name) != (report.definitions[j].inModule,
        report.definitions[j].name))
  }

  predicate OutcomeOk(tokens: Tokenizer, t: Texts, o: Outcome) {
    o.report.Some? ==>
      && ReportOk(o.report.value) && AllTokenise(tokens, t, o.report.value.modules)
      && (forall m | m in o.report.value.modules :: m in o.looked)
  }

  lemma OutcomeStays(tokens: Tokenizer, t: Texts, u: Texts, o: Outcome)
    requires OutcomeOk(tokens, t, o) && Agree(t, u, o.looked)
    ensures OutcomeOk(tokens, u, o)
  {
    if o.report.Some? {
      forall m | m in o.report.value.modules ensures tokens(m, u(m)).Some? {
        assert m in o.looked && t(m) == u(m);
      }
    }
  }

  /** A check is decided by the texts it looked up, and parses what it reports as parsed. */
  ghost predicate CheckOk(tokens: Tokenizer, check: Check) {
    && (forall key, t :: OutcomeOk(tokens, t, check(key, t)))
    && (forall key, t, u :: Agree(t, u, check(key, t).looked) ==> check(key, u) == check(key, t))
  }

  // ---- one session

  /** What is published: the report of the last session that checked, and its texts. */
  datatype Cache = Empty | Cached(key: Fingerprint, texts: Texts, report: Report)

  /** The modules that own a definition of the report have the same tokens. */
  predicate TokensKept(tokens: Tokenizer, t: Texts, u: Texts, report: Report) {
    forall i :: 0 <= i < |report.definitions| ==>
      tokens(report.definitions[i].inModule, t(report.definitions[i].inModule))
      == tokens(report.definitions[i].inModule, u(report.definitions[i].inModule))
  }

  /** The answer of a session and what is published after it. `readable` says whether the
      stored report can be read. */
  ghost function Session(tokens: Tokenizer, check: Check, cache: Cache, key: Fingerprint, t: Texts,
      readable: bool): (Option<Report>, Cache) {
    var tried := cache.Cached? && cache.key == key;
    if tried && !AllTokenise(tokens, t, cache.report.modules) then (None, cache)
    else if tried && readable && TokensKept(tokens, cache.texts, t, cache.report) then (Some(cache.report), cache)
    else
      var clean := check(key, t).report;
      (clean, if clean.Some? then Cached(key, t, clean.value) else cache)
  }

  // ---- exactly when a cached answer is right

  ghost predicate Found(tokens: Tokenizer, check: Check, key: Fingerprint, t: Texts, o: Outcome) {
    CheckOk(tokens, check) && check(key, t) == o
  }

  ghost predicate AnswersCleanly(tokens: Tokenizer, check: Check, cache: Cache, key: Fingerprint, u: Texts) {
    Session(tokens, check, cache, key, u, true).0 == check(key, u).report
  }

  /** A check that answers `o` while the looked-up texts are as in `t`, and otherwise another report. */
  ghost function OtherwiseOther(t: Texts, o: Outcome): Check
    requires o.report.Some?
  {
    (key, v) => if Agree(t, v, o.looked) then o else Outcome(o.looked, Some(OtherReport(o.report.value)))
  }

  function OtherReport(r: Report): (other: Report)
    ensures other != r
  {
    assert Parts([r.diagnostics]).parts[0] == r.diagnostics;
    Report(Value(0), [], [], Parts([r.diagnostics]))
  }

  /** Some check with the recorded outcome answers otherwise as soon as a text it looked up changes. */
  lemma ChangedTextMisleads(tokens: Tokenizer, key: Fingerprint, t: Texts, u: Texts, o: Outcome)
    requires OutcomeOk(tokens, t, o) && o.report.Some? && !Agree(t, u, o.looked)
    requires AllTokenise(tokens, u, o.report.value.modules) ==> TokensKept(tokens, t, u, o.report.value)
    ensures Found(tokens, OtherwiseOther(t, o), key, t, o)
    ensures !AnswersCleanly(tokens, OtherwiseOther(t, o), Cached(key, t, o.report.value), key, u)
  {
    var check := OtherwiseOther(t, o);
    forall k, v ensures OutcomeOk(tokens, v, check(k, v)) {
      if Agree(t, v, o.looked) {
        OutcomeStays(tokens, t, v, o);
      }
    }
  }

  lemma KeptTextsAnswerCleanly(tokens: Tokenizer, check: Check, key: Fingerprint, t: Texts, u: Texts, o: Outcome)
    requires Found(tokens, check, key, t, o) && o.report.Some? && Agree(t, u, o.looked)
    ensures AnswersCleanly(tokens, check, Cached(key, t, o.report.value), key, u)
  {
    assert OutcomeOk(tokens, t, check(key, t)) && check(key, u) == check(key, t);
    assert forall m | m in o.report.value.modules :: t(m) == u(m);
  }

  /** Exactness: from a cached report every check with the recorded outcome is answered as a
      clean check would, if and only if all texts it looked up are as recorded, or the modules
      still tokenise and one that owns a definition has other tokens. */
  lemma AnswersCleanlyExactly(tokens: Tokenizer, key: Fingerprint, t: Texts, u: Texts, o: Outcome)
    requires OutcomeOk(tokens, t, o) && o.report.Some?
    ensures (forall check: Check :: Found(tokens, check, key, t, o) ==>
        AnswersCleanly(tokens, check, Cached(key, t, o.report.value), key, u))
      <==> (Agree(t, u, o.looked)
        || (AllTokenise(tokens, u, o.report.value.modules) && !TokensKept(tokens, t, u, o.report.value)))
  {
    if Agree(t, u, o.looked) {
      forall check: Check | Found(tokens, check, key, t, o)
        ensures AnswersCleanly(tokens, check, Cached(key, t, o.report.value), key, u)
      {
        KeptTextsAnswerCleanly(tokens, check, key, t, u, o);
      }
    } else if AllTokenise(tokens, u, o.report.value.modules) ==> TokensKept(tokens, t, u, o.report.value) {
      ChangedTextMisleads(tokens, key, t, u, o);
    }
  }

  // ---- runs of sessions

  datatype Request = Request(key: Fingerprint, texts: Texts, readable: bool)

  /** What is published after a run of sessions that began without a cache. */
  ghost function After(tokens: Tokenizer, check: Check, run: seq<Request>): Cache {
    if run == [] then Empty
    else
      var last := run[|run| - 1];
      Session(tokens, check, After(tokens, check, run[..|run| - 1]), last.key, last.texts, last.readable).1
  }

  /** The answer of the `i`th session of a run. */
  ghost function AnswerAt(tokens: Tokenizer, check: Check, run: seq<Request>, i: nat): Option<Report>
    requires i < |run|
  {
    Session(tokens, check, After(tokens, check, run[..i]), run[i].key, run[i].texts, run[i].readable).0
  }

  /** The clean answer of the `j`th session of a run was this report. */
  ghost predicate CleanAt(check: Check, run: seq<Request>, j: nat, key: Fingerprint, report: Report) {
    j < |run| && run[j].key == key && check(key, run[j].texts).report == Some(report)
  }

  /** The cache always holds the clean report of a session of the run, with its texts. */
  lemma {:induction false} CacheIsOfTheRun(tokens: Tokenizer, check: Check, run: seq<Request>) returns (j: nat)
    requires After(tokens, check, run).Cached?
    ensures var cache := After(tokens, check, run);
      CleanAt(check, run, j, cache.key, cache.report) && cache.texts == run[j].texts
  {
    var earlier, last := run[..|run| - 1], run[|run| - 1];
    var before, after := After(tokens, check, earlier), After(tokens, check, run);
    if after == before {
      j := CacheIsOfTheRun(tokens, check, earlier);
      assert earlier[j] == run[j];
    } else {
      j := |run| - 1;
    }
  }

  /** Over every run a report that is answered was the clean answer of the same request in this
      session or an earlier one, and since then no module that owns one of its definitions got
      other tokens. A session fails only if the clean check fails or a module of an earlier
      report no longer tokenises. */
  lemma EveryAnswerWasClean(tokens: Tokenizer, check: Check, run: seq<Request>, i: nat)
    requires i < |run|
    ensures var answer := AnswerAt(tokens, check, run, i);
      if answer.Some? then
        exists j: nat :: j <= i && CleanAt(check, run, j, run[i].key, answer.value)
          && (j == i || TokensKept(tokens, run[j].texts, run[i].texts, answer.value))
      else
        check(run[i].key, run[i].texts).report.None?
        || exists j: nat, r: Report ::
          j < i && CleanAt(check, run, j, run[i].key, r) && !AllTokenise(tokens, run[i].texts, r.modules)
  {
    var cache := After(tokens, check, run[..i]);
    var answer := AnswerAt(tokens, check, run, i);
    if cache.Cached? {
      var j := CacheIsOfTheRun(tokens, check, run[..i]);
      assert run[..i][j] == run[j];
      assert cache.key == run[i].key ==> CleanAt(check, run, j, run[i].key, cache.report);
    }
    assert check(run[i].key, run[i].texts).report == answer && answer.Some? ==>
      CleanAt(check, run, i, run[i].key, answer.value);
  }

  /** Where tokens determine texts and every module a check looks up owns a definition of its
      report, every report answered in any run is the clean one. */
  lemma OwnedTextsAnswerCleanly(tokens: Tokenizer, check: Check, run: seq<Request>, i: nat)
    requires CheckOk(tokens, check) && i < |run|
    requires forall m, a, b :: tokens(m, a) == tokens(m, b) ==> a == b
    requires forall j: nat, r: Report, m | CleanAt(check, run, j, run[i].key, r) &&
      m in check(run[i].key, run[j].texts).looked ::
      exists d :: 0 <= d < |r.definitions| && r.definitions[d].inModule == m
    ensures var answer := AnswerAt(tokens, check, run, i);
      answer.Some? ==> answer == check(run[i].key, run[i].texts).report
  {
    EveryAnswerWasClean(tokens, check, run, i);
    var answer := AnswerAt(tokens, check, run, i);
    if answer.Some? {
      var j: nat :| j <= i && CleanAt(check, run, j, run[i].key, answer.value)
        && (j == i || TokensKept(tokens, run[j].texts, run[i].texts, answer.value));
      if j != i {
        var looked := check(run[i].key, run[j].texts).looked;
        forall m | m in looked ensures run[j].texts(m) == run[i].texts(m) {
          var d :| 0 <= d < |answer.value.definitions| && answer.value.definitions[d].inModule == m;
        }
        assert Agree(run[j].texts, run[i].texts, looked);
      }
    }
  }

  // ---- inputs on which a cached answer differs from a clean one

  /** Two modules' texts. */
  function TextsOf(a: Fingerprint, b: Fingerprint): Texts {
    m => if m == 0 then a else b
  }

  /** A report with one definition, of module 0. */
  function Sample(nodes: Fingerprint, modules: seq<nat>): Report {
    Report(Value(0), modules, [Definition(0, 0, Value(0), nodes, Value(0), Value(0), Value(0), Value(0))], Value(0))
  }

  /** The session answers from the cache, and not what a clean check reports. */
  ghost predicate Misled(tokens: Tokenizer, check: Check, t: Texts, u: Texts) {
    CheckOk(tokens, check) && check(Value(0), t).report.Some? && check(Value(0), u).report.Some? &&
    Session(tokens, check, Cached(Value(0), t, check(Value(0), t).report.value), Value(0), u, true).0
      == check(Value(0), t).report != check(Value(0), u).report
  }

  /** All texts have the same tokens; the source graph shows where they stand. */
  const SAME_TOKENS: Tokenizer := (m, text) => Some(Value(0))

  const ANCHORED_CHECK: Check := (key, v: Texts) => Outcome([0], Some(Sample(v(0), [0])))

  /** A comment line moves the definitions below it: the tokens stay, the anchors in the report do not. */
  lemma CommentLineIsMissed()
    ensures Misled(SAME_TOKENS, ANCHORED_CHECK, TextsOf(Value(1), Value(0)), TextsOf(Value(2), Value(0)))
  {
    var t, u := TextsOf(Value(1), Value(0)), TextsOf(Value(2), Value(0));
    assert TokensKept(SAME_TOKENS, t, u, Sample(Value(1), [0]));
  }

  /** Every text has tokens of its own. */
  const OWN_TOKENS: Tokenizer := (m, text) => Some(text)

  /** The definition of module 0 uses a constant of module 1. */
  const CONSTANT_CHECK: Check := (key, v: Texts) => Outcome([0, 1], Some(Sample(v(1), [0, 1])))

  /** A module that only holds constants is parsed, but owns no definition: its new value is missed
      although its tokens changed. */
  lemma ConstantModuleIsMissed()
    ensures Misled(OWN_TOKENS, CONSTANT_CHECK, TextsOf(Value(0), Value(1)), TextsOf(Value(0), Value(2)))
  {
    ConstantIsCheck();
    var t, u := TextsOf(Value(0), Value(1)), TextsOf(Value(0), Value(2));
    assert TokensKept(OWN_TOKENS, t, u, Sample(Value(1), [0, 1]));
  }

  lemma ConstantIsCheck()
    ensures CheckOk(OWN_TOKENS, CONSTANT_CHECK)
  {
    forall key, t: Texts, u: Texts | Agree(t, u, CONSTANT_CHECK(key, t).looked)
      ensures CONSTANT_CHECK(key, u) == CONSTANT_CHECK(key, t)
    {
      ConstantAgrees(key, t, u);
    }
  }

  lemma ConstantAgrees(key: Fingerprint, t: Texts, u: Texts)
    requires Agree(t, u, [0, 1])
    ensures CONSTANT_CHECK(key, u) == CONSTANT_CHECK(key, t)
  {
    assert 1 in [0, 1] && t(1) == u(1);
  }

  /** Module 1 is looked up, and found or not; it is not parsed. */
  const LOOKUP_CHECK: Check := (key, v: Texts) => Outcome([0, 1], Some(Sample(v(1), [0])))

  /** A module that was looked up and not found is not among the parsed ones: its appearance is missed. */
  lemma NewModuleIsMissed()
    ensures Misled(OWN_TOKENS, LOOKUP_CHECK, TextsOf(Value(0), Value(1)), TextsOf(Value(0), Value(2)))
  {
    var t, u := TextsOf(Value(0), Value(1)), TextsOf(Value(0), Value(2));
    assert TokensKept(OWN_TOKENS, t, u, Sample(Value(1), [0]));
  }

  /** Text 2 of module 1 has no tokens. */
  function PartialTokens(m: nat, text: Fingerprint): Option<Fingerprint> {
    if m == 1 && text == Value(2) then None else Some(text)
  }

  /** Module 0 imports module 1 unless its text is 1. */
  function ImportingCheck(key: Fingerprint, v: Texts): Outcome {
    if v(0) == Value(1) then Outcome([0], Some(Sample(Value(0), [0])))
    else if v(1) == Value(2) then Outcome([0, 1], None)
    else Outcome([0, 1], Some(Sample(Value(0), [0, 1])))
  }

  lemma ImportingCheckOk(key: Fingerprint, t: Texts, u: Texts)
    ensures OutcomeOk(PartialTokens, t, ImportingCheck(key, t))
    ensures Agree(t, u, ImportingCheck(key, t).looked) ==> ImportingCheck(key, u) == ImportingCheck(key, t)
  {
    if Agree(t, u, ImportingCheck(key, t).looked) {
      assert 0 in ImportingCheck(key, t).looked && t(0) == u(0);
      assert ImportingCheck(key, t).looked == [0] || (1 in ImportingCheck(key, t).looked && t(1) == u(1));
    }
  }

  lemma ImportingIsCheck()
    ensures CheckOk(PartialTokens, ImportingCheck)
  {
    forall key, t ensures OutcomeOk(PartialTokens, t, ImportingCheck(key, t)) {
      ImportingCheckOk(key, t, t);
    }
    forall key, t: Texts, u: Texts | Agree(t, u, ImportingCheck(key, t).looked)
      ensures ImportingCheck(key, u) == ImportingCheck(key, t)
    {
      ImportingCheckOk(key, t, u);
    }
  }

  /** A module that the texts no longer import fails the session when it does not tokenise,
      although a clean check does not look at it. */
  lemma DroppedModuleFails()
    ensures CheckOk(PartialTokens, ImportingCheck)
    ensures var t, u := TextsOf(Value(0), Value(1)), TextsOf(Value(1), Value(2));
      var before, now := ImportingCheck(Value(0), t), ImportingCheck(Value(0), u);
      before.report.Some? && now.report.Some? && 1 !in now.looked &&
      Session(PartialTokens, ImportingCheck, Cached(Value(0), t, before.report.value), Value(0), u, true).0 == None
  {
    ImportingIsCheck();
    var u := TextsOf(Value(1), Value(2));
    assert 1 in [0, 1] && PartialTokens(1, u(1)).None?;
    assert !AllTokenise(PartialTokens, u, [0, 1]);
  }
}
