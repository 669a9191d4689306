# CatSeq verification model

CatSeq compiles experiment sequences written in Python into programs for RTMQ
boards, downloads them, and runs them over repeat and scan nests. This project
models its hardest parts in Dafny and proves what they promise, for all inputs
and all runs.

* **Morphisms.** `MorphismTree` gives a composition its meaning as a tree and
  defines the flat form; `MorphismArena`, `MorphismBuilder` and
  `MorphismCollection` model the index-based arena, the builder that flattens
  while it appends, and the collection and renumbering at the end.
  `Written` says what a composition says apart from brackets, and `Ways` which
  leaves are passed on a way through it. `TemplatePlans` models how template plans
  become published templates, and `Epochs` the one-pass analysis of global
  synchronisation.
* **Incremental checking.** `Incremental` models the persisted query graph with
  red/green reuse and replay. `ReportGraph` models the queries recorded for a
  report, and `CheckGraph` a whole check with the cache: the modules it queries,
  the replay, the fallback, and what is published. `QueryReuse` says when each
  kind of recorded query is reused, and exactly when what is recorded is what
  executing it would give. `CheckSession` says what answers runs of such
  sessions give. There a check is any function of the source texts it looks up,
  and the tokens of a text need not determine it; a cached report is right for
  every such check exactly under the condition of
  `CheckSession.AnswersCleanlyExactly`.
* **Running on the boards.** `Isa` and `Download` model the instruction encoding
  and the loader, executed on a register machine; `Runtime`, `Dispatch`,
  `Replies`, `Monitor` and `Execution` model the frames, the dispatch with
  retries, the interpretation of replies in any order, and a whole execution.
  `Outcomes` states the outcome over the fields of the packets that arrive.
* **Scanning.** `Scan` and `Traversal` model the nest of repeats and scans, its
  mixed-radix enumeration, the recursive traversal, the independent successor,
  and the pipeline that compiles one point ahead.
* **Numbers.** `ExactDecimal` models checked 128-bit rationals, `DecimalText` the
  texts they are read from, and `Durations` the dimension checker and the two
  routes from source durations to cycles.
* **Source graphs.** `Roles` models the role worklist, `Store` the shared
  append-only store under interleaving, and `ArenaLowering` the memoised
  lowering with an explicit stack.

Code that updates state is a class or a method with loops, proved against
functions; pure code is functions and lemmas. Where the code falls short of what
it is for, a lemma shows the input and another states exactly when it holds:

* an incremental check compares only the tokens, without positions, of the
  modules that own a definition of the cached report. So a comment line leaves
  stale source anchors in the report (`CheckSession.CommentLineIsMissed`), the
  new value of a module that only holds constants is not seen although its tokens
  changed (`CheckSession.ConstantModuleIsMissed`), nor is a module that appears
  where none was found (`CheckSession.NewModuleIsMissed`). The second contradicts
  docs/development/0.3_typed_source_hir_plan.md:136, which promises that a changed
  compile-visible value makes what depends on it red. Exactly when the answer is
  right: `CheckSession.AnswersCleanlyExactly`, read off the stored graph in
  `CheckGraph.StoredAnswersCleanlyExactly`;
* a module that is no longer imported still fails the check when it does not
  tokenise (`CheckSession.DroppedModuleFails`);
* some queries recorded for a report depend on more than they read, so they are
  reused when they are out of date: the list of a module
  (`QueryReuse.OldListIsReused`) and the header of a definition
  (`QueryReuse.OldHeaderIsReused`) read only the tokens of the module, and the
  types of a definition read only its source graph, which another default value
  of a parameter does not change (`QueryReuse.OldSignatureIsReused`). Exactly when
  each of them is right, over any session before: `QueryReuse.ListRightIff`,
  `QueryReuse.HeaderRightIff`, `QueryReuse.TypesRightIff`,
  `QueryReuse.DiagnosticsRightIff`; over one that recorded everything as given:
  `QueryReuse.ListRightExactly`, `QueryReuse.HeaderRightExactly`,
  `QueryReuse.TypesRightExactly`, `QueryReuse.DiagnosticsRightExactly`, and all
  together `QueryReuse.SecondSessionIsRightExactly`. The source graph, the
  resolutions, the availability and the roles of a definition and the reachable
  definitions are never out of date, in any run
  (`QueryReuse.EveryRunKeepsRevisions`). The code reports no diagnostics
  (rust/catseq-frontend/src/typed.rs:311), so these are not out of date either.
  That reuse equals execution for every query is proved for pure providers only,
  under the name `Incremental.Pure`: lists, headers and types read too little for
  it, and which roles the reachable definitions read is not decided by what was
  read before;
* an index parameter given to a repeat by position is set by the traversal but
  not by the successor, so the sequence compiled ahead misses it
  (`Scan.PositionalIndexIsMissed`, `Traversal.SecondSequenceMissesIndex`; exactly
  when not: `Scan.SuccessorAgrees`, `Traversal.CompiledFromOwnParameters`);
* two index parameters of one name, given by position, are never refused when
  they are declared, and then the first point cannot be saved
  (`Scan.PositionalNamesMayClash`; exactly when: `Scan.PointNames`,
  `Traversal.BaseExp.SavePoint`);
* an aggregate of fewer than two values breaks the builder's demand for two
  operands (`TemplatePlans.AggregateOfOneFails`, `TemplatePlans.Materialize`);
* a second failure report of a board replaces the first and loses its
  instruction address (`Replies.SecondFailureLosesAddress`,
  `Replies.AcceptedHistories`);
* a negative integer default becomes a float on one route and stays an integer
  on the other (`Durations.NegativeDefaultBecomesFloat`, `Durations.RoutesAgree`);
* the quotient of two integers is typed as an integer but folds to a float
  (`Durations.IntegerQuotientIsFloat`, `Durations.FoldedTypeIsInferred`);
* a decimal text may have several signs in front and one right after a point that
  comes first, which turns the number around (`DecimalText.SignAfterPointIsRead`;
  exactly which texts are numerals: `DecimalText.ReadIsNumeral`);
* rounding refuses the least numerator and values whose doubled remainder leaves
  128 bits (`ExactDecimal.LeastNumeratorIsRefused`,
  `ExactDecimal.UndoublableRemainderIsRefused`, `ExactDecimal.RoundedConversion`).

## Model

| member | source | states |
|---|---|---|
| MorphismTree.NormalizeIsFlat | rust/catseq-core/src/morphism_arena.rs:631-687 | the flat form of any well-shaped composition is well shaped and has no Serial under a Serial and no Parallel under a Parallel |
| MorphismTree.FlatIffNormal | rust/catseq-core/src/morphism_arena.rs:631-687 | a composition is already flat if and only if flattening leaves it unchanged |
| MorphismTree.SerialBracketingIrrelevant | rust/catseq-core/src/morphism_arena.rs:631-664 | two Serial nests with the same operands and boundary policies from left to right have the same flat form, however they are bracketed |
| MorphismTree.ParallelBracketingIrrelevant | rust/catseq-core/src/morphism_arena.rs:666-687 | two Parallel nests with the same operands from left to right have the same flat form |
| MorphismTree.NormalizePreservesTime | rust/catseq-rtmq/src/oasm_call_plan/timing.rs:162-232 | flattening changes neither the logical nor the physical duration of a composition |
| Written.FlatteningKeepsText | rust/catseq-core/src/morphism_arena.rs:631-687 | flattening drops the brackets of nested compositions and nothing else: leaves, boundary policies, branches, loops and instances stand where they stood |
| Ways.FlatteningKeepsWays | rust/catseq-core/src/morphism_arena.rs:631-687 | flattening keeps the ways through a composition: the leaves passed, in order, when one branch of every Parallel is followed and every loop is taken any number of times |
| MorphismArena.UnfoldIsFlat | rust/catseq-core/src/morphism_arena.rs:333-471 | the tree of every node of a well-formed arena is well shaped and flat |
| MorphismArena.UnfoldStable | rust/catseq-core/src/morphism_arena.rs:785-838 | appending to the tables never changes the tree of a node that was there |
| MorphismArena.InlineNestedSerial | rust/catseq-core/src/morphism_arena.rs:631-664 | replacing a Serial operand by its own operands and boundaries gives the same flat children and the same flat boundaries |
| MorphismArena.InlineNestedParallel | rust/catseq-core/src/morphism_arena.rs:666-687 | replacing a Parallel operand by its own operands gives the same flat children |
| MorphismBuilder.InternedNamesAreDistinct | rust/catseq-core/src/morphism_arena.rs:840-870 | interned names are stored once: two different indexes hold different names |
| MorphismBuilder.MorphismArenaBuilder.constructor | rust/catseq-core/src/morphism_arena.rs:510-512 | a new builder is empty and satisfies the invariant |
| MorphismBuilder.MorphismArenaBuilder.DefinitionRef | rust/catseq-core/src/morphism_arena.rs:520-534 | adds one node whose tree is the named definition with its arguments; earlier nodes keep their trees |
| MorphismBuilder.MorphismArenaBuilder.Atomic | rust/catseq-core/src/morphism_arena.rs:536-550 | adds one node whose tree is the named operation with its arguments |
| MorphismBuilder.MorphismArenaBuilder.Opaque | rust/catseq-core/src/morphism_arena.rs:552-575 | adds one node whose tree is the opaque operation with its board calls |
| MorphismBuilder.MorphismArenaBuilder.PublishTemplate | rust/catseq-core/src/morphism_arena.rs:606-614 | records the root as a template and changes no node |
| MorphismBuilder.MorphismArenaBuilder.Instantiate | rust/catseq-core/src/morphism_arena.rs:616-629 | adds one node whose tree is the template's tree on the given channel |
| MorphismBuilder.MorphismArenaBuilder.Serial | rust/catseq-core/src/morphism_arena.rs:631-664 | the new node's tree is the flattened Serial of the operands' trees and boundaries; the invariant that no Serial has a Serial child is kept |
| MorphismBuilder.MorphismArenaBuilder.Parallel | rust/catseq-core/src/morphism_arena.rs:666-687 | the new node's tree is the flattened Parallel of the operands' trees; no Parallel gets a Parallel child |
| MorphismBuilder.MorphismArenaBuilder.LoopRegion | rust/catseq-core/src/morphism_arena.rs:689-707 | the new node's tree repeats the body's tree |
| MorphismBuilder.MorphismArenaBuilder.Finish | rust/catseq-core/src/morphism_arena.rs:709-783 | succeeds exactly for a known root whose reachable opaque nodes have named calls; the result validates, keeps the trees of the root and of every template, and keeps reachable nodes only |
| MorphismCollection.MarkReachable | rust/catseq-core/src/morphism_arena.rs:715-725 | marks exactly the nodes reachable from the root or a template |
| MorphismCollection.Renumber | rust/catseq-core/src/morphism_arena.rs:727-783 | the kept nodes move to their rank among the marked ones with all references, boundaries and templates following; no lookup fails |
| MorphismCollection.RenumberedUnfold | rust/catseq-core/src/morphism_arena.rs:727-783 | every kept node unfolds to the same tree after renumbering |
| MorphismCollection.RenumberedIsWellFormed | rust/catseq-core/src/morphism_arena.rs:727-783 | after renumbering every edge still points to a smaller index and every slice still fits |
| MorphismCollection.RenumberedReach | rust/catseq-core/src/morphism_arena.rs:709-783 | what was reachable before collection is reachable after it, at its new index |
| MorphismCollection.RenumberedIsCollected | rust/catseq-core/src/morphism_arena.rs:709-783 | collection keeps the trees of the root and of all templates, and every node kept is reachable |
| MorphismCollection.Validate | rust/catseq-core/src/morphism_arena.rs:333-471 | accepts exactly the programs that satisfy the validation rules |
| MorphismCollection.ValidIsWellFormed | rust/catseq-core/src/morphism_arena.rs:333-471 | a program that validates is well formed exactly when references lead to earlier nodes and no composition stands directly under its own kind, and then its board calls are named |
| MorphismCollection.CollectedIsValid | rust/catseq-core/src/morphism_arena.rs:333-471 | a collected arena passes validation if and only if the reachable opaque nodes have named calls |
| TemplatePlans.PlanTreeShaped | rust/catseq-frontend/src/morphism_lowering.rs:2148-2227 | every plan means a well-shaped tree |
| TemplatePlans.PlanTreeStable | rust/catseq-frontend/src/morphism_lowering.rs:2003-2068 | adding plans never changes what an earlier plan means |
| TemplatePlans.PlanTreeText | rust/catseq-frontend/src/morphism_lowering.rs:2148-2227 | the tree of a plan says, token by token, what the recorded plans say: operations, definitions, waits with their duration and semantics, and the boundaries between operands |
| TemplatePlans.InstantiateTemplate | rust/catseq-frontend/src/morphism_lowering.rs:2148-2227 | the new node is an instance on the channel whose body is the flat form of the plan's tree and says token by token what the recorded plans say, whether the template was published before or is lowered now; the table of published templates stays right |
| TemplatePlans.LowerTemplate | rust/catseq-frontend/src/morphism_lowering.rs:2148-2227 | the pass in index order never reads a plan that is not lowered, and its root means the flat form of the plan's tree |
| TemplatePlans.LowerComposition | rust/catseq-frontend/src/morphism_lowering.rs:2003-2068 | without both operands there is no value and nothing changes; two templates are recorded as a Serial with the one boundary, Auto or Strict, or as a Parallel of both, and mean the composition as written; any other two values become a node that means the flat composition of both, and the left failure is reported first |
| TemplatePlans.ComposeFlatIsNormal | rust/catseq-frontend/src/morphism_lowering.rs:2003-2068 | the flat composition of flat operands is the flat form of the composition as written |
| TemplatePlans.Materialize | rust/catseq-frontend/src/morphism_lowering.rs:2070-2146 | a value becomes a node exactly when it has a meaning as a tree, and the node has that tree; bindings do so exactly when there are some, one as its own instance and several beside each other in order, each on its own channel; an aggregate reports the first failure of its values and then fewer than two operands |
| TemplatePlans.AggregateOfOneFails | rust/catseq-frontend/src/morphism_lowering.rs:2086-2098 | one value alone in an aggregate has no meaning although the value has one |
| Epochs.AnalyzeEpochs | rust/catseq-rtmq/src/oasm_call_plan/epochs.rs:13-81 | succeeds exactly when, for the tree of every node, all ways through it cross equally many global syncs and 32 bits hold the number, and then gives every node that number; otherwise the error is that of the first node for which this fails |
| Epochs.FlatteningKeepsEpochs | rust/catseq-rtmq/src/oasm_call_plan/epochs.rs:13-81 | flattening changes neither the sync count nor whether branches and loops agree |
| Epochs.EpochsMean | rust/catseq-rtmq/src/oasm_call_plan/epochs.rs:26-64 | the recursive check accepts a composition exactly when all ways through it cross equally many global syncs and 32 bits hold the number, and its count is that number |
| Epochs.OneNumber | rust/catseq-rtmq/src/oasm_call_plan/epochs.rs:26-64 | the number is unique: through every composition there is a way |
| Epochs.MisplacedSyncIsRefused | rust/catseq-rtmq/src/oasm_call_plan/epochs.rs:36-58 | a global sync beside another operation, or in a loop, is refused |
| Epochs.CollectedVerdict | rust/catseq-rtmq/src/oasm_call_plan/epochs.rs:13-81 | the analysis of a collected arena accepts exactly when all ways through the root's tree, and through that of every template, cross equally many syncs and 32 bits hold the number |
| Incremental.FreshResultsAgree | rust/catseq-frontend/src/incremental.rs:291-341 | when every recorded answer is what its query computes from the answers it read, a query has one result and one list of dependencies, in whatever graph of the session it is recorded |
| Incremental.QuerySession.Append | rust/catseq-frontend/src/incremental.rs:291-310 | records the query after its dependencies; graph and lookup stay consistent and edges point backward |
| Incremental.QuerySession.TryMarkGreen | rust/catseq-frontend/src/incremental.rs:312-341 | reuses the recorded result exactly when the previous session recorded the query with the same answers read in the same order; otherwise nothing changes |
| Incremental.QuerySession.AppendExecuted | rust/catseq-frontend/src/incremental.rs:391-407 | records the result and counts it as executed, and green or red against the previous one |
| Incremental.QuerySession.SemanticQuery | rust/catseq-frontend/src/incremental.rs:500-512 | records the previous result when it is reusable and the given one otherwise; without permission to execute nothing is recorded |
| Incremental.QuerySession.TryReplayGreen | rust/catseq-frontend/src/incremental.rs:443-493 | the two-phase stack ends; every node it adds copies a previous one with mapped dependencies; it fails only where a query already has another result |
| Incremental.AppendedFresh | rust/catseq-frontend/src/incremental.rs:291-310 | recording what a query computes from recorded answers keeps the graph fresh |
| Incremental.ReplayKeepsFresh | rust/catseq-frontend/src/incremental.rs:443-493 | for pure providers, a replay over known source texts leaves the graph fresh for the current texts, also when it stops half way |
| Incremental.ReplaySound | rust/catseq-frontend/src/incremental.rs:443-493 | for pure providers, the fingerprint a successful replay returns is the one any run over the current texts would record |
| Incremental.ReplayExact | rust/catseq-frontend/src/incremental.rs:443-493 | over every graph that recorded repeated queries alike, a replay succeeds if and only if nothing it reads has changed |
| Incremental.ReuseEqualsExecution | rust/catseq-frontend/src/incremental.rs:312-341 | for pure providers, reusing a reusable query records what executing it would record |
| Incremental.CheckEntryAgain | rust/catseq-frontend/src/incremental.rs:929-1016 | for pure providers, querying the modules the previous check read and replaying it gives, when it gives anything, the answer of a clean check |
| CheckSession.AnswersCleanlyExactly | rust/catseq-frontend/src/incremental.rs:929-1016 | for a cached report and new texts: every check with the recorded outcome is answered as a clean check would, if and only if all texts it looked up are unchanged, or the parsed modules still tokenise and one that owns a definition has other tokens |
| CheckSession.ChangedTextMisleads | rust/catseq-frontend/src/incremental.rs:1070-1089 | as soon as one looked-up text changes and the replay is not stopped, some check with the recorded outcome is answered wrongly |
| CheckSession.CommentLineIsMissed | rust/catseq-frontend/src/incremental.rs:1070-1089 | a text with the same tokens and other anchors: the session answers the old report, a clean check another |
| CheckSession.ConstantModuleIsMissed | rust/catseq-frontend/src/typed/compile_attributes.rs:20-73 | a module parsed for its constants alone changes its tokens: the session answers the old report, a clean check another |
| CheckSession.NewModuleIsMissed | rust/catseq-frontend/src/typed/resolution.rs:358-379 | a module that was looked up and not found appears: the session answers the old report, a clean check another |
| CheckSession.DroppedModuleFails | rust/catseq-frontend/src/incremental.rs:1018-1068 | a clean check of the new texts succeeds without looking at the module that fails the session |
| CheckSession.EveryAnswerWasClean | rust/catseq-frontend/src/incremental.rs:929-1016 | over every run of sessions: a report answered was the clean one of this session or of an earlier one with the same request, since when no owning module got other tokens; a session fails only if the clean check fails or a module of an earlier report no longer tokenises |
| CheckSession.OwnedTextsAnswerCleanly | rust/catseq-frontend/src/incremental.rs:929-1016 | where tokens determine texts and every looked-up module owns a definition, every report answered in any run is the clean one |
| CheckGraph.CheckBundle | rust/catseq-frontend/src/incremental.rs:929-1016 | the session over the stored graph gives the answer and the published state of the abstract session, whether it replays, falls back or fails, and a published graph again records its report, so sessions follow each other |
| CheckGraph.StoredAnswersCleanlyExactly | rust/catseq-frontend/src/incremental.rs:929-1016 | when every looked-up module was parsed: every check with the stored report is answered as a clean check would, if and only if the source texts recorded for all queried modules are the current ones, or the modules still tokenise and one that owns a definition has other tokens |
| CheckGraph.ReplayDecides | rust/catseq-frontend/src/incremental.rs:443-493 | the replay of a stored check succeeds if and only if every module that owns a reachable definition has the tokens it had |
| CheckGraph.VisibleIsPlace | rust/catseq-frontend/src/incremental.rs:523-684 | what a replay of a stored check can read are the queries recorded for its report and nothing else |
| CheckGraph.PlacesAreDistinct | rust/catseq-frontend/src/incremental.rs:523-684 | in the graph of one report every query stands at one node |
| ReportGraph.SemanticGraph | rust/catseq-frontend/src/incremental.rs:523-684 | records for every parsed module its list, for every definition its six stages, and the two queries above them, each with exactly the dependencies of the code and the reused or the new result |
| ReportGraph.RecordDefinition | rust/catseq-frontend/src/incremental.rs:548-646 | records the six queries about a definition, each reading the one before it |
| CheckGraph.QueryBundleModules | rust/catseq-frontend/src/incremental.rs:1018-1068 | succeeds exactly when all texts tokenise, and then every module's text and the parse of that text are recorded |
| CheckGraph.QueryBundleModule | rust/catseq-frontend/src/incremental.rs:1018-1068 | a parse reused from the session before is that of the current text |
| ReportGraph.ReplayIsKept | rust/catseq-frontend/src/incremental.rs:443-493 | a replay, also one that stops half way, leaves every recorded result as its key and what it reads decide it |
| ReportGraph.LayoutIsKept | rust/catseq-frontend/src/incremental.rs:523-684 | recording a report over any session leaves every recorded result as its key and what it reads decide it |
| ReportGraph.RevisionsAreNeverOld | rust/catseq-frontend/src/incremental.rs:566-671 | the source graph, the resolutions, the availability and the roles of every definition, and the reachable definitions, are recorded as given although they may be reused |
| QueryReuse.EveryRunKeepsRevisions | rust/catseq-frontend/src/incremental.rs:929-1016 | the same in every run of sessions: over any published graph, what is published next is never old in these results |
| QueryReuse.ListIsReused | rust/catseq-frontend/src/incremental.rs:529-550 | the list of a module is reused if and only if one was recorded and the module has the tokens it had |
| QueryReuse.HeaderIsReused | rust/catseq-frontend/src/incremental.rs:553-564 | a header is reused if and only if one was recorded that read the list recorded now |
| QueryReuse.TypesAreReused | rust/catseq-frontend/src/incremental.rs:602-616 | the types are reused if and only if they were recorded for the same source graph, whatever the signature |
| QueryReuse.DiagnosticsAreReused | rust/catseq-frontend/src/incremental.rs:672-684 | the diagnostics are reused if and only if they were recorded for the same entry over the same source graphs in the same order |
| QueryReuse.ListRightIff | rust/catseq-frontend/src/incremental.rs:529-550 | over any session: the list recorded is the one given if and only if it is executed or the one recorded before is the same |
| QueryReuse.HeaderRightIff | rust/catseq-frontend/src/incremental.rs:553-564 | over any session: the header recorded is the signature given if and only if none was recorded over the same list, or with the same signature |
| QueryReuse.TypesRightIff | rust/catseq-frontend/src/incremental.rs:602-616 | over any session: the types recorded are those given if and only if none were recorded for the source graph, or with the same signature |
| QueryReuse.DiagnosticsRightIff | rust/catseq-frontend/src/incremental.rs:672-684 | over any session: the diagnostics recorded are those given if and only if they are executed or the same |
| QueryReuse.ListRightExactly | rust/catseq-frontend/src/incremental.rs:529-550 | over a session that recorded everything as given: a module's list is right if and only if the module is new, has other tokens, or shows the same names and signatures |
| QueryReuse.HeaderRightExactly | rust/catseq-frontend/src/incremental.rs:553-564 | over such a session: a header is right if and only if no definition of its name was in the report before, in a module with the same tokens, with another signature |
| QueryReuse.TypesRightExactly | rust/catseq-frontend/src/incremental.rs:602-616 | over such a session: the types are right if and only if no definition with the same source graph was in the report before with another signature |
| QueryReuse.DiagnosticsRightExactly | rust/catseq-frontend/src/incremental.rs:672-684 | over such a session: the diagnostics are right if and only if the entry or a source graph is another, or they are the same |
| QueryReuse.AllRightExactly | rust/catseq-frontend/src/incremental.rs:523-684 | over such a session everything is recorded as given if and only if lists of modules with the same tokens, signatures over the same source graph, and diagnostics agree |
| QueryReuse.SecondSessionIsRightExactly | rust/catseq-frontend/src/incremental.rs:929-1016 | a first session records everything as given, and the next to publish over its graph does so if and only if they agree |
| QueryReuse.OldSignatureIsReused | rust/catseq-frontend/src/source_hir.rs:957-967 | another default value of a parameter, which the source graph does not show, leaves the old signature in the recorded types; list and header are right |
| QueryReuse.OldHeaderIsReused | rust/catseq-frontend/src/typed/definition_analysis.rs:142-147 | an inferred return type that changes while the tokens stay leaves the old list and the old header |
| QueryReuse.OldListIsReused | rust/catseq-frontend/src/incremental.rs:529-550 | a module with an unchanged parse gets a second reachable definition: its old list can be reused, executing would give another |
| Isa.DecodeEncode | rust/catseq-rtmq/src/isa.rs:119-229 | decoding an encodable instruction gives it back, except that the atomic mask on destination 0 with both operands nibble 0.0 decodes to a no-op |
| Isa.EncodeDecode | rust/catseq-rtmq/src/isa.rs:119-229 | re-encoding any word that decodes gives the same word |
| Isa.UnknownIffUnencodable | rust/catseq-rtmq/src/isa.rs:186-229 | a word is unknown exactly when no instruction encodes to it |
| Isa.EncodingIsInjectiveUpToAlias | rust/catseq-rtmq/src/isa.rs:119-184 | two instructions share a word only when one is a no-op and the other its alias |
| Isa.StreamRoundTrip | rust/catseq-rtmq/src/isa.rs:119-229 | whole instruction streams round trip, up to the alias |
| Isa.ImmediateFormats | rust/catseq-rtmq/src/isa.rs:119-153 | the words of the immediate instructions, bit field by bit field, with the operation code of every flow |
| Isa.NibbleFormat | rust/catseq-rtmq/src/isa.rs:63-77 | the bits of a nibble operand with its position, and which of them fit |
| Isa.OperandFormats | rust/catseq-rtmq/src/isa.rs:63-77 | the bits and the kinds of the other operands |
| Isa.MaskFormat | rust/catseq-rtmq/src/isa.rs:154-181 | the word of an atomic mask from the bits and kinds of its operands; only a nibble or a stack register can be the mask |
| Isa.FrozenNops | rust/catseq-rtmq/src/isa.rs:121-229 | the three words of a no-op, both ways |
| Isa.FrozenUnknowns | rust/catseq-rtmq/src/isa.rs:186-229 | an unused operation code, and a mask whose operand has no kind, are kept as unknown words |
| Download.MaterializeDownloadLoader | rust/catseq-rtmq/src/download.rs:54-215 | refuses exactly the images beyond the capacity or the address space; otherwise yields the loader word for word, in three adjoining ranges, and no encode fails |
| Download.LoaderInstallsImage | rust/catseq-rtmq/src/download.rs:54-215 | executed on any register machine: after the prologue EXC and RSM are 1, the two constant stack registers are 0 and all ones, and nothing else has changed; the download range writes the image from address 0 and nothing else; the launch points at address 0 with the handler and an empty stack; the core is halted after every prefix from the second word to before the last and runs at the end; the flow control of every instruction is stated |
| Runtime.FramesCarryWords | rust/catseq-runtime/src/protocol/rtlink.rs:124-142 | reading the frames back gives the words in order, and a zero behind an odd number of them |
| Runtime.LaunchMarkIsExact | rust/catseq-runtime/src/execution.rs:364-369 | a frame is marked as bearing the launch if and only if it carries a word of the launch range |
| Runtime.PreparedEndsInLaunch | rust/catseq-runtime/src/execution.rs:309-376 | every prepared board starts with a frame without launch and ends with one that bears it |
| Runtime.PreparedIsRouted | rust/catseq-runtime/src/execution.rs:309-376 | the frames of a prepared board bear the node and the channel of its endpoint and their own number, carry the loader's words two by two with zero behind an odd number, and are marked exactly where a word of the launch travels |
| Runtime.Prepare | rust/catseq-runtime/src/execution.rs:309-376 | succeeds exactly when every board has an endpoint whose capacity, like the address space, holds its image, and every endpoint has a board; each board then gets the frames of its loader, routed to its endpoint |
| Dispatch.Dispatch | rust/catseq-runtime/src/execution.rs:379-425 | the offers made are the run of the retry rule over all frames; it succeeds exactly when all frames were accepted; the evidence is that of the offers |
| Dispatch.AcceptedPrefix | rust/catseq-runtime/src/execution.rs:379-425 | the accepted frames are a prefix of the schedule in its order, and unless they are all of it the last offer is the next frame, not accepted |
| Dispatch.OfferedWithinBudget | rust/catseq-runtime/src/execution.rs:387-405 | no frame is offered more often than the retry budget plus one |
| Dispatch.SubmittedNotOfferedAgain | rust/catseq-runtime/src/execution.rs:387-420 | an accepted frame is never offered again, and nothing follows an unknown acceptance |
| Dispatch.StopsOnlyOnEvidence | rust/catseq-runtime/src/execution.rs:387-405 | a run that ends in a refusal has offered that frame exactly as often as the budget allows |
| Dispatch.EvidenceMeaning | rust/catseq-runtime/src/execution.rs:427-441 | a board's evidence says exactly whether a launch-bearing frame, only another frame, or none was accepted or of unknown acceptance |
| Dispatch.DispatchCertainty | rust/catseq-runtime/src/execution.rs:640-660 | after a dispatch the certainty is NotStarted exactly when no launch-bearing frame was accepted or of unknown acceptance, and Indeterminate otherwise |
| Replies.AcceptedHistories | rust/catseq-runtime/src/execution.rs:533-617 | a board's history of replies is accepted if and only if no two of its events conflict, and then state, report, pending address and results can be read off it |
| Replies.TerminalNeverChanges | rust/catseq-runtime/src/execution.rs:533-617 | once a board is terminal no accepted reply changes its state |
| Replies.BoardOutcome | rust/catseq-runtime/src/execution.rs:533-617 | a board succeeded exactly when it reported one completion, and then no failure and no exception address; a report exists exactly for failed boards and a pending address only for boards that are not terminal |
| Replies.SecondFailureLosesAddress | rust/catseq-runtime/src/execution.rs:557-570 | a second failure report replaces the first and has no instruction address |
| Monitor.Observation.ApplyFrame | rust/catseq-runtime/src/execution.rs:533-617 | a reply changes the board its node belongs to by its event and no other; a violation changes nothing |
| Monitor.Observation.Observe | rust/catseq-runtime/src/execution.rs:507-531 | a packet with another ether type, addresses that are not mirrored, our own marker, or another route is passed over and changes nothing |
| Outcomes.BoardHistory | rust/catseq-runtime/src/execution.rs:526-617 | where its accepted history has brought a board, read off the packets for the program: completed, failed or neither, the report of the last failure with its address, the pending address, and the data words in order |
| Outcomes.SucceedsExactly | rust/catseq-runtime/src/execution.rs:453-524 | the watch succeeds exactly when some of the arrivals, from the first on, complete all boards, none of them a failed receive, an undecodable packet for the program or one that clashes with an earlier one; it ends with the first such number of arrivals |
| Outcomes.SuccessMeans | rust/catseq-runtime/src/execution.rs:453-617 | after a success every board has sent exactly one completion, no failure and no exception address |
| Outcomes.OnlyCompletionsSucceed | rust/catseq-runtime/src/execution.rs:453-617 | when every board sends exactly one packet for the program, its completion, and no other packet is for the program, the watch succeeds once they have arrived |
| Outcomes.OutcomeIsDecided | rust/catseq-runtime/src/execution.rs:453-524 | the arrivals decide how many are taken, whether the watch succeeds, and with which code it fails |
| Monitor.Observation.Watch | rust/catseq-runtime/src/execution.rs:453-524 | every board is where its own events have brought it; success means valid success, a failure is valid, its certainty is FullyObserved exactly for device exceptions, and its code names the arrival that ended the watch; read off the fields of the packets alone: how many are taken, which boards completed or failed, the reports and the results are those of `Outcomes.Outcome` |
| Execution.CompleteDispatchLaunchesAll | rust/catseq-runtime/src/execution.rs:379-441 | after a complete dispatch every board's launch is submitted |
| Execution.EveryExecutionIsSafe | rust/catseq-runtime/src/execution.rs:253-307 | over every transport: accepted frames are a prefix of the prepared frames, no frame is offered beyond the budget or after its acceptance, and nothing after an unknown one |
| Execution.ExecuteWithTransport | rust/catseq-runtime/src/execution.rs:253-307 | the transport is opened at most once and closed exactly when it opened; a program that cannot be prepared, a transport that does not open and a frame that is not accepted fail with their own codes; once all frames are accepted the result is the outcome that the arrivals decide; success means one completion per board, no failure, and the results it sent; a failure claims NotStarted exactly when no launch was submitted and FullyObserved exactly when all boards are terminal |
| Scan.NextVector | catseq/experiment/descartes.py:140-154 | stepping the last digit that is not full and restarting the later ones gives the next vector of the lexicographic enumeration |
| Scan.LastIsFull | catseq/experiment/descartes.py:142-154 | the last vector of the enumeration, and no other, has every digit full |
| Scan.AtPrefixStep | catseq/experiment/descartes.py:173-235 | the points below one more fixed index are the next block of the enumeration |
| Scan.SuccessorAgrees | catseq/experiment/descartes.py:132-171 | for every nest and point, the successor equals the traversal's point if and only if each positional index that sets its parameter last gives it the value of the last registered node of that parameter |
| Scan.SuccessorAgreesEverywhere | catseq/experiment/descartes.py:132-171 | for parameters that differ from node to node and two points or more, it equals the next point everywhere if and only if no index parameter was given by position |
| Scan.PositionalIndexIsMissed | catseq/experiment/descartes.py:156-165 | two repeats, one with a positional index: its second point has the parameter, the successor does not |
| Scan.PointNames | catseq/experiment/para_dict.py:65-71 | the parameters of a point have names of their own if and only if nodes that set parameters of one name set the same parameter |
| Scan.PointShapes | catseq/experiment/para_dict.py:108-124 | all points of a nest have the same parameters and axes |
| Scan.PositionalNamesMayClash | catseq/experiment/para_dict.py:65-71 | two positional index parameters of one name, which declaration does not refuse |
| Traversal.DescartesGenerator.RegisterParam | catseq/experiment/descartes.py:261-272 | a parameter is registered exactly when neither it nor a namesake was; a refusal changes nothing |
| Traversal.DescartesGenerator.AddRepeat | catseq/experiment/descartes.py:62-100 | a repeat is added exactly for a count that is not negative and a registrable index parameter; axes and registered parameters stay distinct |
| Traversal.DescartesGenerator.AddScan | catseq/experiment/descartes.py:62-100 | a scan is added exactly for values that compile and a registrable parameter; values that cannot be compiled leave the parameter registered |
| Traversal.DescartesGenerator.AddFinal | catseq/experiment/descartes.py:102-114 | final_exp is accepted exactly once and remembers where among the nodes it stands |
| Traversal.DescartesGenerator.NextScanPoint | catseq/experiment/descartes.py:132-171 | gives the rebuilt next point, or none at the last one; the lookup fails exactly when nodes follow final_exp |
| Traversal.DescartesGenerator.CallNext | catseq/experiment/descartes.py:116-121 | the points below the current indexes are visited in order, all of them when the call returns; parameters and coordinates are restored on every exit |
| Traversal.DescartesGenerator.VisitNode | catseq/experiment/descartes.py:173-235 | a repeat or scan node restores parameters and coordinates whether it returned, stopped or raised |
| Traversal.BaseExp.ExecutePoint | catseq/experiment/base_exp.py:177-198 | runs the sequence compiled for this point and leaves the next point's compilation pending |
| Traversal.BaseExp.AppendPoint | catseq/experiment/para_dict.py:65-89 | a point is recorded exactly when its parameters have names of their own and it has the parameters and axes of the first one; a refusal records nothing |
| Traversal.BaseExp.SavePoint | catseq/experiment/para_dict.py:65-124 | a save raises exactly when two parameters along the path share a name, and then changes nothing |
| Traversal.BaseExp.RunExperiment | catseq/experiment/base_exp.py:143-157 | with names apart, the saved points are a prefix of the enumeration, all of it when the run returns, every sequence ran once in order, and compilations number the executed points and at most one more; with a shared name the first save raises and nothing is saved, compiled or run |
| Traversal.CompiledFromOwnParameters | catseq/experiment/base_exp.py:177-198 | every sequence that runs was compiled from its own point's parameters if and only if from the second point on the successor recovers what the positional indexes set |
| Traversal.CompiledFromOwnUnlessPositional | catseq/experiment/base_exp.py:177-198 | for parameters that differ from node to node, if and only if no index parameter was given by position |
| Traversal.SecondSequenceMissesIndex | catseq/experiment/base_exp.py:177-198 | a nest whose second sequence is compiled without the index parameter of its point |
| ExactDecimal.GcdLoop | rust/catseq-core/src/exact_decimal.rs:190-195 | the loop computes the greatest common divisor, at least one |
| ExactDecimal.LowestTermsMeaning | rust/catseq-core/src/exact_decimal.rs:178-195 | in lowest terms no integer above one divides both parts |
| ExactDecimal.NewReduces | rust/catseq-core/src/exact_decimal.rs:178-188 | construction keeps the ratio, reaches lowest terms and a positive denominator |
| ExactDecimal.CanonicalIsUnique | rust/catseq-core/src/exact_decimal.rs:5-9 | two canonical values are structurally equal exactly when they are the same ratio |
| ExactDecimal.SameValueSame | rust/catseq-core/src/exact_decimal.rs:5-9 | structural equality is equality of the rational numbers |
| ExactDecimal.AddIsExact | rust/catseq-core/src/exact_decimal.rs:61-68 | a sum is canonical and exact, and refused exactly when a cross product, their sum or the denominator leaves 128 bits |
| ExactDecimal.SubIsExact | rust/catseq-core/src/exact_decimal.rs:70-72 | a difference is canonical and exact |
| ExactDecimal.MulIsExact | rust/catseq-core/src/exact_decimal.rs:74-79 | a product is canonical and exact, and refused exactly when a product leaves 128 bits |
| ExactDecimal.DivIsExact | rust/catseq-core/src/exact_decimal.rs:81-93 | a quotient is canonical and exact; refused exactly for a zero or least divisor or a product out of range |
| ExactDecimal.NegIsExact | rust/catseq-core/src/exact_decimal.rs:102-104 | negation is exact and refuses only the least numerator |
| ExactDecimal.SubUndoesAdd | rust/catseq-core/src/exact_decimal.rs:61-72 | subtracting what was added gives back the identical value |
| ExactDecimal.DivUndoesMul | rust/catseq-core/src/exact_decimal.rs:74-93 | dividing by what was multiplied gives back the identical value |
| ExactDecimal.CompareIsOrder | rust/catseq-core/src/exact_decimal.rs:106-120 | comparison and maximum follow the order of the rational numbers |
| ExactDecimal.ExactConversion | rust/catseq-core/src/exact_decimal.rs:122-134 | the exact conversions answer exactly for integers in range, with that integer |
| ExactDecimal.RoundedConversion | rust/catseq-core/src/exact_decimal.rs:136-172 | the rounded conversions give the nearest integer with ties to even, and refuse exactly negative counts, results out of range, the least numerator and remainders that cannot be doubled |
| ExactDecimal.NearestEvenIsUnique | rust/catseq-core/src/exact_decimal.rs:136-172 | there is only one nearest integer with ties to even |
| ExactDecimal.SignedRoundingIsOdd | rust/catseq-core/src/exact_decimal.rs:153-172 | rounding the negated value negates the result, save where the mirrored result does not fit |
| ExactDecimal.LeastNumeratorIsRefused | rust/catseq-core/src/exact_decimal.rs:153-172 | the least numerator is refused although an integer in range is nearest |
| ExactDecimal.UndoublableRemainderIsRefused | rust/catseq-core/src/exact_decimal.rs:153-172 | a value in lowest terms whose remainder cannot be doubled is refused although 1 is nearest |
| ExactDecimal.ParsedIsWritten | rust/catseq-core/src/exact_decimal.rs:51-58 | the digits and the scale of a parsed number give exactly the number written |
| DecimalText.NumeralIsRead | rust/catseq-core/src/exact_decimal.rs:33-59 | the text of a numeral, with its sign, point and exponent, is read as the number it writes in lowest terms, and refused exactly when its digits or its scale leave their range |
| DecimalText.ReadIsNumeral | rust/catseq-core/src/exact_decimal.rs:33-59 | a text that is read is a numeral if and only if it has at most one sign in front and none after a point that comes first |
| DecimalText.SignAfterPointIsRead | rust/catseq-core/src/exact_decimal.rs:33-59 | a text with a sign after the point is read, as the number with the sign turned around |
| Durations.ScalingLaw | rust/catseq-frontend/src/morphism_lowering/normalized_value.rs:21-89 | when a second is worth k times as much, a value of Duration dimension is k times as much and a Scalar is unchanged |
| Durations.ParseIsMeaning | rust/catseq-frontend/src/morphism_lowering/normalized_value.rs:147-201 | what parsing yields is the canonical value of the expression in seconds |
| Durations.FoldBinaryIsExact | rust/catseq-frontend/src/morphism_lowering/value_lowering.rs:629-721 | folding two constants applies the operation to their numbers exactly, under the rules for dimensions |
| Durations.FoldIsMeaning | rust/catseq-frontend/src/morphism_lowering/value_lowering.rs:519-530 | what folding yields, with units in cycles, is the canonical value of the expression in cycles and has the dimension found by the checker |
| Durations.UnitsMean | rust/catseq-frontend/src/morphism_lowering/normalized_value.rs:159-167 | a second is worth a second, and a thousand of each smaller unit are worth the next larger one |
| Durations.UnitsParse | rust/catseq-frontend/src/morphism_lowering/normalized_value.rs:159-167 | parsed, a second is 1 and a thousand of each smaller unit are the very value of the next larger one |
| Durations.UnitsFold | rust/catseq-frontend/src/morphism_lowering/value_lowering.rs:519-530 | folded, a second is the clock and a thousand of each smaller unit are the very constant of the next larger one, at every clock frequency |
| Durations.RoutesAgree | rust/catseq-frontend/src/morphism_lowering/normalized_value.rs:123-145 | whenever both routes are defined they give the same number, for a duration the same constant, and for a scalar the same constant exactly when its inferred type is a float, it contains a division, or it is a bare integer |
| Durations.NegativeDefaultBecomesFloat | rust/catseq-frontend/src/morphism_lowering/normalized_value.rs:123-145 | a negative integer default is a float on one route and an integer on the other |
| Durations.DeclaredDuration | rust/catseq-frontend/src/morphism_lowering/value_lowering.rs:456-517 | a compile value declared a duration is accepted exactly when it has the dimension and fits, and then equals the folded one |
| Durations.DeclaredInteger | rust/catseq-frontend/src/morphism_lowering/value_lowering.rs:456-517 | declared an integer it is accepted exactly when its number, read in seconds whatever its dimension, is that integer; a count of cycles stays one whatever is declared |
| Durations.DimensionIsInferred | rust/catseq-frontend/src/source_hir.rs:1629-1666 | what the dimension checker accepts is inferred a type of that dimension |
| Durations.FoldedTypeIsInferred | rust/catseq-frontend/src/source_hir.rs:1629-1666 | a folded constant has the inferred type, except exactly when integers were divided on the way to an inferred integer |
| Durations.IntegerQuotientIsFloat | rust/catseq-frontend/src/source_hir.rs:1629-1666 | one divided by two is typed an integer and folds to a float |
| Roles.PropagateDependencyRoles | rust/catseq-frontend/src/source_hir.rs:1728-1785 | the worklist ends; a node is Structural if and only if child edges and resolutions lead to it from the first child of a Call, Conditional or Loop or from a child in the first half of a Dictionary, and Relocatable if and only if they lead to it from a later child of a Call or from one in the second half of a Dictionary |
| Roles.FixpointIsLeast | rust/catseq-frontend/src/source_hir.rs:1768-1785 | with nothing pending every reached node holds the role, also around cycles of resolutions |
| Roles.FirstLinkStructuralUse | rust/catseq-frontend/src/source_hir.rs:474-483 | finds the first node available at link time that is Structural in that sense, and none exactly when there is none |
| Store.CheckedStaysTrue | rust/catseq-core/src/arena.rs:304-385 | what was checked under the read lock still holds at the later append |
| Store.PerformKeepsInvariant | rust/catseq-core/src/arena.rs:531-629 | every step under the write lock keeps references valid and ranked and templates closed |
| Store.EveryStateIsSound | rust/catseq-core/src/arena.rs:304-464 | under every interleaving every state keeps the invariant and every append is still justified when it happens |
| Store.PublishedTemplateIsStable | rust/catseq-core/src/arena.rs:397-430 | over the rest of every run a published template reaches the same nodes, all in template segments and none of them changed |
| Store.NoCycle | rust/catseq-core/src/arena.rs:304-464 | no path of references comes back to its start |
| Store.ReachableStats | rust/catseq-core/src/arena.rs:685-712 | counts every reachable node once and the template instances among them, and never fails on a frozen root |
| Store.ArenaStore.Compose | rust/catseq-core/src/arena.rs:304-339 | with any steps of other threads between check and append, it succeeds exactly when the checks held and the segment is still open, and appends the one node, whose channels are those of either child |
| Store.ArenaStore.AppendRaw | rust/catseq-core/src/arena.rs:341-385 | with any steps of other threads between check and append, a node with the children its kind demands is appended exactly when its checks held and the segment is still open |
| Store.ArenaStore.Append | rust/catseq-core/src/arena.rs:531-545 | appends a checked node exactly when the segment is open |
| ArenaLowering.ValidateMorphismGraph | rust/catseq-frontend/src/arena_lowering.rs:226-254 | accepts exactly when everything the root is built from produces a Morphism; otherwise names a reached expression that does not |
| ArenaLowering.MorphismFromKinds | rust/catseq-frontend/src/arena_lowering.rs:226-254 | when every reached expression is a call or a composition, the recursive lowering is defined |
| ArenaLowering.LowerSequenceHir | rust/catseq-frontend/src/arena_lowering.rs:100-188 | with any steps of other threads before each check and between check and append: succeeds exactly when the graph is valid and the segment is open in the end; the root means what the recursive lowering says; the memo table holds exactly the reached expressions, and the run of the store is the others' steps and one append for each of them but the aliases |
| ArenaLowering.AloneAppends | rust/catseq-frontend/src/arena_lowering.rs:100-188 | without other threads an open segment stays open and gets exactly the nodes of the lowering |
| ArenaLowering.ExpandTop | rust/catseq-frontend/src/arena_lowering.rs:107-148 | pushing the finishing work and the parts keeps every awaited expression lowered or above, so no lookup can fail |

## Left out

- MorphismBuilder.MorphismArenaBuilder.Finish: indexes are unbounded; the truncation of lengths to 32 bits beyond 2^32 entries is not modelled, and provenance is an opaque number.
- Epochs.AnalyzeEpochs: is stated for arenas whose templates precede their instances, as builders make them; arenas read from a file may order them otherwise.
- MorphismTree.NormalizePreservesTime: durations are unbounded integers; overflow of 64 bits and the details of target profiles are not modelled, and loop counts are taken from an abstract model of values.
- TemplatePlans.Materialize: the builder's panic on an aggregate of fewer than two values is modelled as a failure.
- Incremental.CheckEntryAgain: holds for pure providers (`Incremental.Pure`), as do `Incremental.ReplaySound`, `Incremental.ReplayKeepsFresh` and `Incremental.ReuseEqualsExecution`. The queries recorded for a report are not of that kind; what holds of them, kind by kind, is in `QueryReuse`, and the check as it is, with its exact condition, in `CheckSession` and `CheckGraph`.
- CheckGraph.CheckBundle: fingerprints are free of collisions, and a source text is its fingerprint; texts do not change during a session. JSON, file publishing, clocks, statistics and a damaged cache file are not modelled, except that a stored report may be unreadable. The single-file form is the case of one module. The definitions of a report are taken to have distinct qualified names.
- CheckSession.AnswersCleanlyExactly: a check is any function of the texts it looks up; which functions the type checker can compute is not modelled.
- Download.LoaderInstallsImage: the register machine follows the documented instruction semantics; the offset of the TCS stack and timing are not modelled.
- Monitor.Observation.Watch: the transport is an oracle of arrivals that ends in the deadline; the real clock, sockets and the byte layout of RTLink frames are not modelled. Result data after a terminal state is only rejected where the code rejects it, and is not claimed to be rejected in general.
- Runtime.Prepare: the frame encoder cannot fail for channels below 32, which the endpoints guarantee, so its error path does not appear.
- Traversal.BaseExp.RunExperiment: the compile executor is modelled by the order of submissions; threads, analyzers, devices, panels, files and cleanup are calls that may raise. Both loop forms are one method, since they differ only in the value bound.
- ExactDecimal.RoundedConversion: conversions to and from binary floating point and the remainder are left out.
- Durations.FoldBinaryIsExact: powers, shifts, floor division and modulo are left out.
- Durations.FoldIsMeaning: powers, shifts, floor division and modulo are left out, and a float literal is taken to have the same decimal text on both routes. The clock frequency is positive, as validation of the target demands. The text of the normalised notation is a tree.
- Roles.PropagateDependencyRoles: the sorted list of roles of a node is a set.
- QueryReuse.SecondSessionIsRightExactly: a replay that stops half way leaves copies of older results beside the queries of the report; what holds over such graphs is in `QueryReuse.ListRightIff`, `QueryReuse.HeaderRightIff`, `QueryReuse.TypesRightIff` and `QueryReuse.DiagnosticsRightIff`, which need nothing of the session before.
- ArenaLowering.LowerSequenceHir: source spans and the arguments of calls, which stay in the source graph, are not modelled. The freezing of the root at the end only looks it up, and it is there.
- Source HIR structural comparison, its reachability mask and the reuse of locals, and the derivation of a destination address from a source address: small pure helpers that would only add easy members.
- Scheduling, event lowering and plan building of the OASM call plan: beside the epochs and the duration law they are not part of this model.
- Python and tree-sitter parsing, name resolution, annotation and record checks: much branching with shallow properties.
- Devices, HDF5, panels, bindings, command line, benchmarks and release tools: they would only add easy members.
- Channel mask strings of the compilation utilities: the round trip of their text form is not claimed.
