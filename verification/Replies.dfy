/** What replies say about boards: the event of one reply, and what a board's whole history amounts to. */
module Replies {
  import opened Common
  import opened Isa
  import opened Runtime
  import opened Dispatch

  const DOWNLOAD_FLAG := 4
  const OPERATION_TAG := 0xFFFF

  // ---- what one reply says about one board

  datatype Event =
    | AddressReported(address: Word)
    | FailureReported(flags: Word)
    | DownloadData(word: Word)
    | Completion
    | OperationData(first: Word, second: Word)
    | TaggedData(first: Word, second: Word)
    | Silent

  function NodeOf(r: Reply): Half {
    if r.flag == DOWNLOAD_FLAG || r.tag == OPERATION_TAG then r.first % 0x1_0000 else r.tag % 0x1_0000
  }

  function EventOf(r: Reply): Event {
    if r.flag == DOWNLOAD_FLAG then
      (if r.first / 0x10_0000 == 1 then AddressReported(r.second)
       else if r.first / 0x10_0000 == 0 then FailureReported(r.second)
       else DownloadData(r.second))
    else if r.tag == OPERATION_TAG then
      (if r.second == 0 && r.first / 0x1_0000 == 0 then Completion
       else if r.second != 0 then OperationData(r.first, r.second)
       else Silent)
    else TaggedData(r.first, r.second)
  }

  function BoardForNode(es: seq<Endpoint>, node: Half): (b: Option<OasmAddress>)
    ensures b.Some? ==> exists e :: e in es && e.node == node && e.address == b.value
    ensures b.None? ==> forall e :: e in es ==> e.node != node
  {
    if es == [] then None
    else if es[0].node == node then Some(es[0].address)
    else BoardForNode(es[1..], node)
  }

  // ---- one board on its own

  datatype Local = Local(state: BoardState, report: Option<ExceptionReport>, pending: Option<Word>, data: seq<Word>)

  const LAUNCHED := Local(LaunchSubmitted, None, None, [])

  /** The board after one event; none when the event violates the protocol. */
  function Next(s: Local, e: Event): Option<Local> {
    match e
    case AddressReported(address) => if s.state.IsTerminal() then None else Some(s.(pending := Some(address)))
    case FailureReported(flags) =>
      if s.state == Succeeded then None
      else Some(s.(state := DeviceFailed, report := Some(ExceptionReport(flags, s.pending)), pending := None))
    case DownloadData(word) => Some(s.(data := s.data + [word]))
    case Completion => if s.pending.Some? || s.state.IsTerminal() then None else Some(s.(state := Succeeded))
    case OperationData(first, second) => Some(s.(data := s.data + [first, second]))
    case TaggedData(first, second) => if s.state.IsTerminal() then None else Some(s.(data := s.data + [first, second]))
    case Silent => Some(s)
  }

  function After(es: seq<Event>): Option<Local> {
    if es == [] then Some(LAUNCHED) else
      var before := After(es[..|es| - 1]);
      if before.None? then None else Next(before.value, es[|es| - 1])
  }

  /** The pairs of events that cannot both be reported by one board in this order. */
  predicate Conflict(earlier: Event, later: Event) {
    || ((earlier.Completion? || earlier.FailureReported?) &&
        (later.AddressReported? || later.TaggedData? || later.Completion?))
    || (earlier.Completion? && later.FailureReported?)
    || (earlier.AddressReported? && later.Completion?)
  }

  predicate Clean(es: seq<Event>) {
    forall i, j :: 0 <= i < j < |es| ==> !Conflict(es[i], es[j])
  }

  function Completions(es: seq<Event>): nat {
    if es == [] then 0 else Completions(es[..|es| - 1]) + if es[|es| - 1].Completion? then 1 else 0
  }

  function Failures(es: seq<Event>): nat {
    if es == [] then 0 else Failures(es[..|es| - 1]) + if es[|es| - 1].FailureReported? then 1 else 0
  }

  function LastAddress(es: seq<Event>): Option<Word> {
    if es == [] then None
    else if es[|es| - 1].AddressReported? then Some(es[|es| - 1].address)
    else LastAddress(es[..|es| - 1])
  }

  function LastFlags(es: seq<Event>): Word {
    if es == [] then 0
    else if es[|es| - 1].FailureReported? then es[|es| - 1].flags
    else LastFlags(es[..|es| - 1])
  }

  function DataOf(e: Event): seq<Word> {
    match e
    case DownloadData(word) => [word]
    case OperationData(first, second) => [first, second]
    case TaggedData(first, second) => [first, second]
    case _ => []
  }

  function AllData(es: seq<Event>): seq<Word> {
    if es == [] then [] else AllData(es[..|es| - 1]) + DataOf(es[|es| - 1])
  }

  /** The state of a board read off its whole history. The report keeps the flags of the last failure; it
      keeps an instruction address only while there was a single failure. */
  function Summary(es: seq<Event>): Local {
    Local(
      if Completions(es) > 0 then Succeeded else if Failures(es) > 0 then DeviceFailed else LaunchSubmitted,
      if Failures(es) > 0 then Some(ExceptionReport(LastFlags(es), if Failures(es) == 1 then LastAddress(es)
        else None)) else None,
      if Failures(es) > 0 then None else LastAddress(es),
      AllData(es))
  }

  /** How the counters relate to the events themselves. */
  lemma {:induction false} CountsMeaning(es: seq<Event>)
    ensures Completions(es) > 0 <==> exists i :: 0 <= i < |es| && es[i].Completion?
    ensures Failures(es) > 0 <==> exists i :: 0 <= i < |es| && es[i].FailureReported?
    ensures LastAddress(es).Some? <==> exists i :: 0 <= i < |es| && es[i].AddressReported?
  {
    if es != [] {
      var init := es[..|es| - 1];
      CountsMeaning(init);
      forall i | 0 <= i < |init|
        ensures init[i] == es[i]
      {
      }
    }
  }

  lemma CleanStep(es: seq<Event>)
    requires es != []
    ensures Clean(es) <==> Clean(es[..|es| - 1]) && forall i :: 0 <= i < |es| - 1 ==> !Conflict(es[i], es[|es| - 1])
  {
    var init := es[..|es| - 1];
    if Clean(init) && forall i :: 0 <= i < |es| - 1 ==> !Conflict(es[i], es[|es| - 1]) {
      forall i, j | 0 <= i < j < |es|
        ensures !Conflict(es[i], es[j])
      {
        if j < |es| - 1 {
          assert init[i] == es[i] && init[j] == es[j];
        }
      }
    }
    if Clean(es) {
      forall i, j | 0 <= i < j < |init|
        ensures !Conflict(init[i], init[j])
      {
        assert init[i] == es[i] && init[j] == es[j];
      }
    }
  }

  /** A history is accepted if and only if no two of its events conflict, and then it fixes the state. */
  lemma {:induction false} AcceptedHistories(es: seq<Event>)
    ensures After(es).Some? <==> Clean(es)
    ensures Clean(es) ==> After(es) == Some(Summary(es))
  {
    if es != [] {
      var init := es[..|es| - 1];
      AcceptedHistories(init);
      CleanStep(es);
      if Clean(init) {
        NextOnSummary(es);
      }
    }
  }

  lemma NextOnSummary(es: seq<Event>)
    requires es != [] && Clean(es[..|es| - 1])
    ensures var next := Next(Summary(es[..|es| - 1]), es[|es| - 1]);
      && (next.Some? <==> forall i :: 0 <= i < |es| - 1 ==> !Conflict(es[i], es[|es| - 1]))
      && (next.Some? ==> next.value == Summary(es))
  {
    var init := es[..|es| - 1];
    CountsMeaning(init);
    FailureExcludesCompletion(init);
    forall i | 0 <= i < |init|
      ensures init[i] == es[i]
    {
    }
  }

  lemma FailureExcludesCompletion(es: seq<Event>)
    requires Clean(es)
    ensures Completions(es) == 0 || Failures(es) == 0
    ensures Completions(es) == 0 || LastAddress(es).None?
  {
    CountsMeaning(es);
    if i, j :| 0 <= i < |es| && 0 <= j < |es| && es[i].Completion? && (es[j].FailureReported? || es[j].AddressReported?)
    {
      assert Conflict(es[i], es[j]);
      assert Conflict(es[j], es[i]);
    }
  }

  /** Once a board is terminal no later event changes its state. */
  lemma {:induction false} TerminalNeverChanges(es: seq<Event>, n: nat)
    requires n <= |es| && After(es).Some? && After(es[..n]).Some? && After(es[..n]).value.state.IsTerminal()
    ensures After(es).value.state == After(es[..n]).value.state
  {
    if n < |es| {
      assert es[..|es| - 1][..n] == es[..n];
      TerminalNeverChanges(es[..|es| - 1], n);
    } else {
      assert es[..n] == es;
    }
  }

  /** A board that succeeded reported one completion and neither a failure nor an exception address; a report
      exists exactly for failed boards, and a pending address only for boards that are not terminal. */
  lemma BoardOutcome(es: seq<Event>)
    requires After(es).Some?
    ensures var s := After(es).value;
      && s.state.Rank() >= LaunchSubmitted.Rank()
      && (s.state == Succeeded <==> Completions(es) == 1)
      && (s.state == Succeeded ==> Failures(es) == 0 && LastAddress(es).None?)
      && (s.state == DeviceFailed <==> Failures(es) > 0)
      && (s.report.Some? <==> s.state == DeviceFailed)
      && (s.pending.Some? ==> !s.state.IsTerminal())
  {
    AcceptedHistories(es);
    FailureExcludesCompletion(es);
    AtMostOneCompletion(es);
  }

  lemma {:induction false} AtMostOneCompletion(es: seq<Event>)
    requires Clean(es)
    ensures Completions(es) <= 1
  {
    if es != [] {
      var init := es[..|es| - 1];
      CleanStep(es);
      AtMostOneCompletion(init);
      CountsMeaning(init);
      if Completions(init) > 0 {
        var i :| 0 <= i < |init| && init[i].Completion?;
        assert !Conflict(es[i], es[|es| - 1]);
      }
    }
  }

  lemma AfterStep(es: seq<Event>, e: Event)
    ensures After(es + [e]) == if After(es).None? then None else Next(After(es).value, e)
  {
    assert (es + [e])[..|es|] == es;
  }

  /** A second failure report of a board replaces the first one and loses its instruction address. */
  lemma SecondFailureLosesAddress(address: Word, first: Word, second: Word)
    ensures var one := [AddressReported(address)] + [FailureReported(first)];
      && After(one).Some? && After(one).value.report == Some(ExceptionReport(first, Some(address)))
      && After(one + [FailureReported(second)]).Some?
      && After(one + [FailureReported(second)]).value.report == Some(ExceptionReport(second, None))
  {
    var one := [AddressReported(address)] + [FailureReported(first)];
    assert [] + [AddressReported(address)] == [AddressReported(address)];
    AfterStep([], AddressReported(address));
    AfterStep([AddressReported(address)], FailureReported(first));
    AfterStep(one, FailureReported(second));
  }

  // ---- all boards

  /** The events of one board among the replies received, in order. */
  function EventsOf(es: seq<Endpoint>, replies: seq<Reply>, b: OasmAddress): seq<Event> {
    if replies == [] then [] else
      var r := replies[|replies| - 1];
      EventsOf(es, replies[..|replies| - 1], b) + if BoardForNode(es, NodeOf(r)) == Some(b) then [EventOf(r)] else []
  }

  predicate Attributable(e: Envelope, p: Packet) {
    && p.envelope.etherType == e.etherType && p.envelope.source == e.destination
    && p.envelope.destination == e.source && p.envelope.marker != e.marker
  }

  predicate Relevant(p: Program, e: Envelope, packet: Packet) {
    Attributable(e, packet) && packet.route == Some((p.replyChannel, p.replyNode))
  }

  /** The replies among the received packets; foreign traffic is skipped. */
  function RepliesIn(p: Program, e: Envelope, arrivals: seq<Arrival>): seq<Reply> {
    if arrivals == [] then [] else
      var a := arrivals[|arrivals| - 1];
      RepliesIn(p, e, arrivals[..|arrivals| - 1]) +
      if a.Received? && Relevant(p, e, a.packet) && a.packet.reply.Some? then [a.packet.reply.value] else []
  }

  /** The reply conflicts with what its board reported before. */
  predicate Clashes(c: Config, replies: seq<Reply>, r: Reply) {
    var b := BoardForNode(c.endpoints, NodeOf(r));
    b.Some? && !Clean(EventsOf(c.endpoints, replies, b.value))
  }

  /** The packet, the last of these arrivals, is for us and cannot be decoded, or its reply clashes. */
  predicate Violates(p: Program, c: Config, e: Envelope, arrivals: seq<Arrival>, packet: Packet) {
    Relevant(p, e, packet) && (packet.reply.Some? ==> Clashes(c, RepliesIn(p, e, arrivals), packet.reply.value))
  }

  /** One more reply adds its event to its board's history and to no other. */
  lemma ReplyStep(es: seq<Endpoint>, before: seq<Reply>, r: Reply, was: map<OasmAddress, Local>, after: seq<Reply>)
    requires after == before + [r]
    requires forall b | b in was :: After(EventsOf(es, before, b)) == Some(was[b])
    ensures forall b | b in was ::
      After(EventsOf(es, after, b)) == if BoardForNode(es, NodeOf(r)) == Some(b) then Next(was[b], EventOf(r))
        else Some(was[b])
  {
    assert after[..|before|] == before;
    forall b | b in was
      ensures After(EventsOf(es, after, b)) == if BoardForNode(es, NodeOf(r)) == Some(b)
        then Next(was[b], EventOf(r)) else Some(was[b])
    {
      AfterStep(EventsOf(es, before, b), EventOf(r));
      assert EventsOf(es, before, b) + [] == EventsOf(es, before, b);
    }
  }

  lemma RepliesStep(p: Program, e: Envelope, before: seq<Arrival>, packet: Packet, after: seq<Arrival>)
    requires after == before + [Received(packet)]
    ensures RepliesIn(p, e, after) ==
      RepliesIn(p, e, before) + if Relevant(p, e, packet) && packet.reply.Some? then [packet.reply.value] else []
    ensures !Relevant(p, e, packet) || packet.reply.None? ==> RepliesIn(p, e, after) == RepliesIn(p, e, before)
  {
    assert after[..|after| - 1] == before;
    assert RepliesIn(p, e, before) + [] == RepliesIn(p, e, before);
  }
}
