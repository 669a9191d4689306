/** Physical execution of an assembled program: prepare frames, dispatch them, monitor the replies. */
module Runtime {
  import opened Common
  import opened Isa
  import opened Download

  type OasmAddress = x: nat | x < 13

  datatype BoardState = NotDispatched | LoaderSubmitted | LaunchSubmitted | Succeeded | DeviceFailed {
    /** The declaration order, in which evidence only ever grows. */
    function Rank(): nat {
      match this
      case NotDispatched => 0
      case LoaderSubmitted => 1
      case LaunchSubmitted => 2
      case Succeeded => 3
      case DeviceFailed => 4
    }

    predicate IsTerminal() {
      this == Succeeded || this == DeviceFailed
    }
  }

  datatype Certainty = NotStarted | FullyObserved | Indeterminate

  datatype FailureCode =
    | ProgramInvalid | TopologyInvalid | TransportOpenFailed | TransportSendFailed
    | TransportReceiveFailed | CompletionTimeout | DeviceException | ProtocolViolation

  type Evidence = map<OasmAddress, BoardState>

  datatype ExceptionReport = ExceptionReport(flags: Word, address: Option<Word>)

  datatype Failure = Failure(code: FailureCode, certainty: Certainty, evidence: Evidence,
    exceptions: map<OasmAddress, ExceptionReport>)

  datatype Success = Success(evidence: Evidence, results: map<OasmAddress, seq<Word>>)

  function DeriveCertainty(evidence: Evidence): Certainty {
    if exists b | b in evidence :: evidence[b] == LaunchSubmitted || evidence[b].IsTerminal() then
      if exists b | b in evidence :: evidence[b] == LaunchSubmitted then Indeterminate else FullyObserved
    else NotStarted
  }

  function Fail(code: FailureCode, evidence: Evidence, exceptions: map<OasmAddress, ExceptionReport>): Failure {
    Failure(code, DeriveCertainty(evidence), evidence, exceptions)
  }

  predicate FailureValid(f: Failure) {
    && f.certainty == DeriveCertainty(f.evidence)
    && forall b | b in f.exceptions :: b in f.evidence && f.evidence[b] == DeviceFailed
  }

  predicate SuccessValid(s: Success) {
    s.evidence.Keys != {} && forall b | b in s.evidence :: s.evidence[b] == Succeeded
  }

  // ---- the program and the topology

  datatype Board = Board(address: OasmAddress, ich: seq<Word>, handler: Word)

  datatype Program = Program(replyNode: Half, replyChannel: Byte, boards: seq<Board>)

  datatype Endpoint = Endpoint(address: OasmAddress, node: Half, channel: Byte, capacity: nat)

  datatype Config = Config(endpoints: seq<Endpoint>)

  /** What the constructors of program and configuration enforce. */
  predicate ProgramOk(p: Program) {
    && p.boards != []
    && (forall i, j :: 0 <= i < j < |p.boards| ==> p.boards[i].address != p.boards[j].address)
    && forall i :: 0 <= i < |p.boards| ==> p.boards[i].handler < |p.boards[i].ich|
  }

  predicate ConfigOk(c: Config) {
    && (forall i, j :: 0 <= i < j < |c.endpoints| ==>
      c.endpoints[i].address != c.endpoints[j].address && c.endpoints[i].node != c.endpoints[j].node)
    && forall i :: 0 <= i < |c.endpoints| ==> c.endpoints[i].channel <= 31
  }

  function Addresses(p: Program): set<OasmAddress> {
    set i | 0 <= i < |p.boards| :: p.boards[i].address
  }

  function Configured(c: Config): set<OasmAddress> {
    set i | 0 <= i < |c.endpoints| :: c.endpoints[i].address
  }

  function EndpointFor(es: seq<Endpoint>, address: OasmAddress): (e: Option<Endpoint>)
    ensures e.Some? ==> e.value in es && e.value.address == address
    ensures e.None? ==> forall i :: 0 <= i < |es| ==> es[i].address != address
  {
    if es == [] then None else if es[0].address == address then Some(es[0]) else EndpointFor(es[1..], address)
  }

  /** Every board is mapped and no other, and every image fits its board. */
  predicate HandoffOk(p: Program, c: Config) {
    && Addresses(p) == Configured(c)
    && forall i, j :: 0 <= i < |p.boards| && 0 <= j < |c.endpoints| && p.boards[i].address == c.endpoints[j].address ==>
      |p.boards[i].ich| <= c.endpoints[j].capacity
  }

  // ---- frames

  /** One two-word download frame of a board's loader, with its route; flag and tag are fixed. */
  datatype Frame = Frame(board: OasmAddress, node: Half, channel: Byte, index: nat, first: Word, second: Word,
    launch: bool)

  /** The loader's words two by two, the last frame padded with zero; a frame bears the launch
      when the words it carries reach into the launch range. */
  function FrameAt(e: Endpoint, words: seq<Word>, launchStart: nat, k: nat): Frame
    requires 2 * k < |words|
  {
    Frame(e.address, e.node, e.channel, k, words[2 * k], if 2 * k + 1 < |words| then words[2 * k + 1]
      else 0, k * 2 + 2 > launchStart)
  }

  function FramesOf(e: Endpoint, words: seq<Word>, launchStart: nat): (fs: seq<Frame>)
    ensures |fs| == (|words| + 1) / 2
    ensures forall k :: 0 <= k < |fs| ==> fs[k] == FrameAt(e, words, launchStart, k)
  {
    seq((|words| + 1) / 2, k requires 0 <= k < (|words| + 1) / 2 => FrameAt(e, words, launchStart, k))
  }

  /** Word number j travels in frame number k. */
  predicate Carries(words: seq<Word>, k: nat, j: nat) {
    j < |words| && j / 2 == k
  }

  /** The mark is exact: a frame bears the launch if and only if it carries a word of the launch range. */
  lemma LaunchMarkIsExact(e: Endpoint, words: seq<Word>, launchStart: nat, k: nat)
    requires launchStart < |words| && 2 * k < |words|
    ensures FrameAt(e, words, launchStart, k).launch <==> exists j :: launchStart <= j && Carries(words, k, j)
  {
    if FrameAt(e, words, launchStart, k).launch {
      var j := if launchStart <= 2 * k then 2 * k else 2 * k + 1;
      assert Carries(words, k, j);
    }
  }

  /** What the receiver reads out of frames, two words each. */
  function WordsIn(fs: seq<Frame>): (words: seq<Word>)
    ensures |words| == 2 * |fs|
  {
    if fs == [] then [] else WordsIn(fs[..|fs| - 1]) + [fs[|fs| - 1].first, fs[|fs| - 1].second]
  }

  lemma {:induction false} WordAt(fs: seq<Frame>, j: nat)
    requires j < 2 * |fs|
    ensures WordsIn(fs)[j] == if j % 2 == 0 then fs[j / 2].first else fs[j / 2].second
  {
    if j < 2 * (|fs| - 1) {
      WordAt(fs[..|fs| - 1], j);
    }
  }

  /** Reading the frames back gives the words, and a zero behind an odd number of them. */
  lemma FramesCarryWords(e: Endpoint, words: seq<Word>, launchStart: nat)
    ensures WordsIn(FramesOf(e, words, launchStart)) == words + if |words| % 2 == 1 then [0] else []
  {
    var fs := FramesOf(e, words, launchStart);
    forall j: nat | j < 2 * |fs| ensures WordsIn(fs)[j] == if j < |words| then words[j] else 0 {
      WordAt(fs, j);
    }
  }

  /** What preparing one board yields: the frames of its materialised loader, routed to its endpoint. */
  ghost predicate PreparedFor(b: Board, c: Config, fs: seq<Frame>) {
    exists l: Loader, e: Endpoint ::
      e in c.endpoints && e.address == b.address && IsLoader(b.ich, b.handler, l) &&
      fs == FramesOf(e, l.words, l.downloadEnd)
  }

  /** The frames bear the endpoint's route and their own number, the words two by two and zero behind an odd number
      of them, and the launch mark exactly where a word of the launch travels. */
  ghost predicate CarryTo(e: Endpoint, l: Loader, fs: seq<Frame>) {
    && |l.words| <= 2 * |fs| <= |l.words| + 1
    && forall k :: 0 <= k < |fs| ==>
      && fs[k].board == e.address && fs[k].node == e.node && fs[k].channel == e.channel && fs[k].index == k
      && fs[k].first == l.words[2 * k] && fs[k].second == (if 2 * k + 1 < |l.words| then l.words[2 * k + 1] else 0)
      && (fs[k].launch <==> exists j :: l.downloadEnd <= j && Carries(l.words, k, j))
  }

  ghost predicate RoutedFor(b: Board, c: Config, fs: seq<Frame>) {
    exists l: Loader, e: Endpoint ::
      e in c.endpoints && e.address == b.address && IsLoader(b.ich, b.handler, l) && CarryTo(e, l, fs)
  }

  lemma PreparedIsRouted(b: Board, c: Config, fs: seq<Frame>)
    requires PreparedFor(b, c, fs)
    ensures RoutedFor(b, c, fs)
  {
    var l: Loader, e: Endpoint :| e in c.endpoints && e.address == b.address && IsLoader(b.ich, b.handler, l) &&
      fs == FramesOf(e, l.words, l.downloadEnd);
    FramesCarryTo(e, l);
  }

  lemma FramesCarryTo(e: Endpoint, l: Loader)
    requires l.downloadEnd < |l.words|
    ensures CarryTo(e, l, FramesOf(e, l.words, l.downloadEnd))
  {
    var fs := FramesOf(e, l.words, l.downloadEnd);
    forall k | 0 <= k < |fs|
      ensures fs[k].launch <==> exists j :: l.downloadEnd <= j && Carries(l.words, k, j)
    {
      LaunchMarkIsExact(e, l.words, l.downloadEnd, k);
    }
  }

  /** Every prepared board starts with a frame that does not bear the launch and ends with one that does. */
  lemma PreparedEndsInLaunch(b: Board, c: Config, fs: seq<Frame>)
    requires PreparedFor(b, c, fs)
    ensures |fs| >= 2 && fs[|fs| - 1].launch && !fs[0].launch
    ensures forall k :: 0 <= k < |fs| ==> fs[k].board == b.address && fs[k].index == k
  {
  }

  ghost predicate Ready(b: Board, c: Config, fs: seq<Frame>) {
    PreparedFor(b, c, fs) && RoutedFor(b, c, fs)
  }

  /** The frames of one board's loader; an image beyond the address space has none. */
  method PrepareBoard(b: Board, c: Config, endpoint: Endpoint) returns (fs: Option<seq<Frame>>)
    requires b.handler < |b.ich| <= endpoint.capacity
    requires endpoint in c.endpoints && endpoint.address == b.address
    ensures fs.Some? <==> |b.ich| <= ICA_ADDRESS_SPACE_WORDS
    ensures fs.Some? ==> Ready(b, c, fs.value)
  {
    var loader := MaterializeDownloadLoader(b.ich, endpoint.capacity, b.handler);
    if loader.Err? {
      return None;
    }
    var frames := FramesOf(endpoint, loader.value.words, loader.value.downloadEnd);
    assert IsLoader(b.ich, b.handler, loader.value);
    PreparedIsRouted(b, c, frames);
    fs := Some(frames);
  }

  /** The board has an endpoint whose capacity, like the address space, holds its image. */
  predicate HasRoom(c: Config, b: Board) {
    exists x | x in c.endpoints :: x.address == b.address && |b.ich| <= x.capacity && |b.ich| <= 0x10_0000
  }

  predicate HasBoard(p: Program, x: Endpoint) {
    exists b | b in p.boards :: b.address == x.address
  }

  predicate Preparable(p: Program, c: Config) {
    && (forall b {:trigger HasRoom(c, b)} | b in p.boards :: HasRoom(c, b))
    && forall x {:trigger HasBoard(p, x)} | x in c.endpoints :: HasBoard(p, x)
  }

  predicate Addressable(p: Program) {
    forall i :: 0 <= i < |p.boards| ==> |p.boards[i].ich| <= ICA_ADDRESS_SPACE_WORDS
  }

  lemma HandoffIsPreparable(p: Program, c: Config)
    requires ConfigOk(c) && HandoffOk(p, c) && Addressable(p)
    ensures Preparable(p, c)
  {
    forall b | b in p.boards
      ensures HasRoom(c, b)
    {
      var i :| 0 <= i < |p.boards| && p.boards[i] == b;
      assert b.address in Configured(c);
      var j :| 0 <= j < |c.endpoints| && c.endpoints[j].address == b.address;
      assert c.endpoints[j] in c.endpoints;
    }
    forall x | x in c.endpoints
      ensures HasBoard(p, x)
    {
      assert x.address in Addresses(p);
      var i :| 0 <= i < |p.boards| && p.boards[i].address == x.address;
      assert p.boards[i] in p.boards;
    }
  }

  lemma PreparableIsHandoff(p: Program, c: Config)
    requires ConfigOk(c) && Preparable(p, c)
    ensures HandoffOk(p, c) && Addressable(p)
  {
    forall i | 0 <= i < |p.boards|
      ensures |p.boards[i].ich| <= ICA_ADDRESS_SPACE_WORDS && p.boards[i].address in Configured(c)
      ensures forall j :: 0 <= j < |c.endpoints| && p.boards[i].address == c.endpoints[j].address ==>
        |p.boards[i].ich| <= c.endpoints[j].capacity
    {
      RoomIsFound(c, p.boards[i]);
    }
    forall a | a in Configured(c)
      ensures a in Addresses(p)
    {
      var j :| 0 <= j < |c.endpoints| && c.endpoints[j].address == a;
      assert HasBoard(p, c.endpoints[j]);
      var b :| b in p.boards && b.address == a;
    }
  }

  lemma RoomIsFound(c: Config, b: Board)
    requires ConfigOk(c) && HasRoom(c, b)
    ensures |b.ich| <= ICA_ADDRESS_SPACE_WORDS && b.address in Configured(c)
    ensures forall j :: 0 <= j < |c.endpoints| && b.address == c.endpoints[j].address ==>
      |b.ich| <= c.endpoints[j].capacity
  {
    var x :| x in c.endpoints && x.address == b.address && |b.ich| <= x.capacity && |b.ich| <= 0x10_0000;
    var k :| 0 <= k < |c.endpoints| && c.endpoints[k] == x;
  }

  method Prepare(p: Program, c: Config, evidence: Evidence, exceptions: map<OasmAddress, ExceptionReport>)
    returns (r: Result<seq<seq<Frame>>, Failure>)
    requires ProgramOk(p) && ConfigOk(c)
    ensures r.Ok? <==> Preparable(p, c)
    ensures r.Ok? ==> HandoffOk(p, c)
    ensures r.Ok? ==> |r.value| == |p.boards| && forall i :: 0 <= i < |p.boards| ==>
      Ready(p.boards[i], c, r.value[i])
    ensures r.Err? ==> r.error == Fail(TopologyInvalid, evidence, exceptions)
  {
    if Preparable(p, c) {
      PreparableIsHandoff(p, c);
    }
    if !HandoffOk(p, c) {
      return Err(Fail(TopologyInvalid, evidence, exceptions));
    }
    var prepared: seq<seq<Frame>> := [];
    for i := 0 to |p.boards|
      invariant |prepared| == i
      invariant forall k :: 0 <= k < i ==>
        |p.boards[k].ich| <= ICA_ADDRESS_SPACE_WORDS && Ready(p.boards[k], c, prepared[k])
    {
      var board := p.boards[i];
      assert board.address in Addresses(p);
      var endpoint := EndpointFor(c.endpoints, board.address).value;
      var frames := PrepareBoard(board, c, endpoint);
      if frames.None? {
        return Err(Fail(TopologyInvalid, evidence, exceptions));
      }
      prepared := prepared + [frames.value];
    }
    HandoffIsPreparable(p, c);
    return Ok(prepared);
  }
}
