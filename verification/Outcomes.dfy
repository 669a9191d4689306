/** The outcome of watching a program, read off the fields of the packets that arrive. */
module Outcomes {
  import opened Common
  import opened Isa
  import opened Runtime
  import opened Dispatch
  import opened Replies

  // ---- one packet

  /** The packet answers our envelope and is routed to the program. */
  predicate ForProgram(p: Program, e: Envelope, a: Arrival) {
    && a.Received? && a.packet.envelope.etherType == e.etherType
    && a.packet.envelope.source == e.destination && a.packet.envelope.destination == e.source
    && a.packet.envelope.marker != e.marker && a.packet.route == Some((p.replyChannel, p.replyNode))
  }

  predicate Says(p: Program, e: Envelope, a: Arrival) {
    ForProgram(p, e, a) && a.packet.reply.Some?
  }

  /** The successful completion of the board at this node. */
  predicate Completes(p: Program, e: Envelope, node: Half, a: Arrival) {
    Says(p, e, a) && var q := a.packet.reply.value;
      q.flag != 4 && q.tag == 0xFFFF && q.first == node && q.second == 0
  }

  /** Its failure; the second word holds the flags. */
  predicate Fails(p: Program, e: Envelope, node: Half, a: Arrival) {
    Says(p, e, a) && var q := a.packet.reply.value;
      q.flag == 4 && q.first % 0x1_0000 == node && q.first < 0x10_0000
  }

  /** The address of its exception, in the second word. */
  predicate Locates(p: Program, e: Envelope, node: Half, a: Arrival) {
    Says(p, e, a) && var q := a.packet.reply.value;
      q.flag == 4 && q.first % 0x1_0000 == node && 0x10_0000 <= q.first < 0x20_0000
  }

  /** One word of data. */
  predicate Downloads(p: Program, e: Envelope, node: Half, a: Arrival) {
    Says(p, e, a) && var q := a.packet.reply.value;
      q.flag == 4 && q.first % 0x1_0000 == node && 0x20_0000 <= q.first
  }

  /** Two words of data under the operation tag. */
  predicate Operates(p: Program, e: Envelope, node: Half, a: Arrival) {
    Says(p, e, a) && var q := a.packet.reply.value;
      q.flag != 4 && q.tag == 0xFFFF && q.first % 0x1_0000 == node && q.second != 0
  }

  /** Two words of data under the board's own tag. */
  predicate Tags(p: Program, e: Envelope, node: Half, a: Arrival) {
    Says(p, e, a) && var q := a.packet.reply.value;
      q.flag != 4 && q.tag != 0xFFFF && q.tag % 0x1_0000 == node
  }

  // ---- all packets about one board

  predicate Completed(p: Program, e: Envelope, node: Half, seen: seq<Arrival>) {
    exists a | a in seen :: Completes(p, e, node, a)
  }

  predicate Failed(p: Program, e: Envelope, node: Half, seen: seq<Arrival>) {
    exists a | a in seen :: Fails(p, e, node, a)
  }

  predicate Located(p: Program, e: Envelope, node: Half, seen: seq<Arrival>) {
    exists a | a in seen :: Locates(p, e, node, a)
  }

  /** The second of two packets cannot follow the first. */
  predicate Clash(p: Program, e: Envelope, node: Half, earlier: Arrival, later: Arrival) {
    || ((Completes(p, e, node, earlier) || Fails(p, e, node, earlier)) &&
        (Locates(p, e, node, later) || Tags(p, e, node, later) || Completes(p, e, node, later)))
    || (Completes(p, e, node, earlier) && Fails(p, e, node, later))
    || (Locates(p, e, node, earlier) && Completes(p, e, node, later))
  }

  /** The word of the last exception address. */
  predicate LastAddressIs(p: Program, e: Envelope, node: Half, seen: seq<Arrival>, word: Word) {
    exists k :: 0 <= k < |seen| && Locates(p, e, node, seen[k]) && seen[k].packet.reply.value.second == word &&
      forall j :: k < j < |seen| ==> !Locates(p, e, node, seen[j])
  }

  /** The address a failure would report now: the last one, unless there was a failure already. */
  predicate AddressIs(p: Program, e: Envelope, node: Half, seen: seq<Arrival>, address: Option<Word>) {
    if Failed(p, e, node, seen) || !Located(p, e, node, seen) then address == None
    else address.Some? && LastAddressIs(p, e, node, seen, address.value)
  }

  /** The last failure is number k, and the report holds its flags and the address known then. */
  predicate LastFailureAt(p: Program, e: Envelope, node: Half, seen: seq<Arrival>, k: nat, report: ExceptionReport) {
    && k < |seen| && Fails(p, e, node, seen[k]) && report.flags == seen[k].packet.reply.value.second
    && AddressIs(p, e, node, seen[..k], report.address)
    && forall j :: k < j < |seen| ==> !Fails(p, e, node, seen[j])
  }

  predicate ReportIs(p: Program, e: Envelope, node: Half, seen: seq<Arrival>, report: ExceptionReport) {
    exists k :: 0 <= k < |seen| && LastFailureAt(p, e, node, seen, k, report)
  }

  /** The data words in order. */
  function WordsFrom(p: Program, e: Envelope, node: Half, seen: seq<Arrival>): seq<Word> {
    if seen == [] then [] else
      var a := seen[|seen| - 1];
      WordsFrom(p, e, node, seen[..|seen| - 1]) +
      if Downloads(p, e, node, a) then [a.packet.reply.value.second]
      else if Operates(p, e, node, a) || Tags(p, e, node, a)
      then [a.packet.reply.value.first, a.packet.reply.value.second]
      else []
  }

  function StateFrom(p: Program, e: Envelope, node: Half, seen: seq<Arrival>): BoardState {
    if Completed(p, e, node, seen) then Succeeded else if Failed(p, e, node, seen) then DeviceFailed
    else LaunchSubmitted
  }

  // ---- all boards

  /** Every board has completed or failed. */
  predicate Settled(p: Program, c: Config, e: Envelope, seen: seq<Arrival>) {
    forall x | x in c.endpoints :: Completed(p, e, x.node, seen) || Failed(p, e, x.node, seen)
  }

  /** A packet for the program that cannot be decoded, or follows one that it cannot follow. */
  predicate Refused(p: Program, c: Config, e: Envelope, seen: seq<Arrival>, a: Arrival) {
    && ForProgram(p, e, a)
    && (a.packet.reply.None? || exists x, earlier | x in c.endpoints && earlier in seen ::
      Clash(p, e, x.node, earlier, a))
  }

  /** The watch takes this arrival and goes on. */
  predicate GoesOn(p: Program, c: Config, e: Envelope, seen: seq<Arrival>, a: Arrival) {
    !Settled(p, c, e, seen) && a.Received? && !Refused(p, c, e, seen, a)
  }

  predicate Undecided(p: Program, c: Config, e: Envelope, seen: seq<Arrival>) {
    forall m {:trigger GoesOn(p, c, e, seen[..m], seen[m])} :: 0 <= m < |seen| ==> GoesOn(p, c, e, seen[..m], seen[m])
  }

  predicate EvidenceIs(p: Program, c: Config, e: Envelope, seen: seq<Arrival>, evidence: Evidence) {
    forall x | x in c.endpoints :: x.address in evidence && evidence[x.address] == StateFrom(p, e, x.node, seen)
  }

  predicate ReportsAre(p: Program, c: Config, e: Envelope, seen: seq<Arrival>,
                       exceptions: map<OasmAddress, ExceptionReport>) {
    forall x | x in c.endpoints ::
      && (x.address in exceptions <==> Failed(p, e, x.node, seen))
      && (x.address in exceptions ==> ReportIs(p, e, x.node, seen, exceptions[x.address]))
  }

  predicate ResultsAre(p: Program, c: Config, e: Envelope, seen: seq<Arrival>, results: map<OasmAddress, seq<Word>>) {
    forall x | x in c.endpoints ::
      WordsFrom(p, e, x.node, seen) == if x.address in results then results[x.address] else []
  }

  /** What ends a watch whose boards are not settled: the next arrival, or the deadline behind the last. */
  predicate EndedBy(p: Program, c: Config, e: Envelope, rest: seq<Arrival>, n: nat, code: FailureCode)
    requires n <= |rest|
  {
    if n == |rest| || rest[n].DeadlinePassed? then code == CompletionTimeout
    else if rest[n].ReceiveFailed? then code == TransportReceiveFailed
    else Refused(p, c, e, rest[..n], rest[n]) && code == ProtocolViolation
  }

  /** The outcome after n arrivals: all boards settled for the first time, or the watch could not go on. */
  predicate Outcome(p: Program, c: Config, e: Envelope, rest: seq<Arrival>, n: nat, r: Result<Success, Failure>) {
    && n <= |rest| && Undecided(p, c, e, rest[..n])
    && EvidenceIs(p, c, e, rest[..n], if r.Ok? then r.value.evidence else r.error.evidence)
    && (r.Ok? ==> Settled(p, c, e, rest[..n]) && ResultsAre(p, c, e, rest[..n], r.value.results))
    && (r.Ok? ==> forall x | x in c.endpoints :: !Failed(p, e, x.node, rest[..n]))
    && (r.Err? ==> ReportsAre(p, c, e, rest[..n], r.error.exceptions))
    && (r.Err? && Settled(p, c, e, rest[..n]) ==>
      r.error.code == DeviceException && exists x | x in c.endpoints :: Failed(p, e, x.node, rest[..n]))
    && (r.Err? && !Settled(p, c, e, rest[..n]) ==> EndedBy(p, c, e, rest, n, r.error.code))
  }

  // ---- the fields and the board's own history

  /** Where its own history has brought a board, read off the packets. */
  predicate BoardIs(p: Program, e: Envelope, node: Half, seen: seq<Arrival>, s: Local) {
    && s.state == StateFrom(p, e, node, seen) && AddressIs(p, e, node, seen, s.pending)
    && (s.report.Some? <==> Failed(p, e, node, seen))
    && (s.report.Some? ==> ReportIs(p, e, node, seen, s.report.value))
    && s.data == WordsFrom(p, e, node, seen)
  }

  /** The packet is a reply of this board. */
  predicate Reports(p: Program, e: Envelope, node: Half, a: Arrival) {
    a.Received? && Relevant(p, e, a.packet) && a.packet.reply.Some? && NodeOf(a.packet.reply.value) == node
  }

  /** The kinds of event, by the fields of the packet. */
  lemma KindsOfReports(p: Program, e: Envelope, node: Half, a: Arrival)
    ensures Completes(p, e, node, a) <==> Reports(p, e, node, a) && EventOf(a.packet.reply.value).Completion?
    ensures Fails(p, e, node, a) <==> Reports(p, e, node, a) && EventOf(a.packet.reply.value).FailureReported?
    ensures Locates(p, e, node, a) <==> Reports(p, e, node, a) && EventOf(a.packet.reply.value).AddressReported?
    ensures Downloads(p, e, node, a) <==> Reports(p, e, node, a) && EventOf(a.packet.reply.value).DownloadData?
    ensures Operates(p, e, node, a) <==> Reports(p, e, node, a) && EventOf(a.packet.reply.value).OperationData?
    ensures Tags(p, e, node, a) <==> Reports(p, e, node, a) && EventOf(a.packet.reply.value).TaggedData?
  {
    if Says(p, e, a) {
      LowHalf(a.packet.reply.value.first);
    }
  }

  lemma LowHalf(first: Word)
    ensures first / 0x1_0000 == 0 <==> first == first % 0x1_0000
    ensures first / 0x10_0000 == 0 <==> first < 0x10_0000
    ensures first / 0x10_0000 == 1 <==> 0x10_0000 <= first < 0x20_0000
  {
  }

  lemma MoreSeen(p: Program, e: Envelope, node: Half, seen: seq<Arrival>, a: Arrival)
    ensures Completed(p, e, node, seen + [a]) <==> Completed(p, e, node, seen) || Completes(p, e, node, a)
    ensures Failed(p, e, node, seen + [a]) <==> Failed(p, e, node, seen) || Fails(p, e, node, a)
    ensures Located(p, e, node, seen + [a]) <==> Located(p, e, node, seen) || Locates(p, e, node, a)
  {
    assert a in seen + [a];
    assert forall o :: o in seen ==> o in seen + [a];
  }

  lemma MoreWords(p: Program, e: Envelope, node: Half, seen: seq<Arrival>, a: Arrival)
    ensures WordsFrom(p, e, node, seen + [a]) == WordsFrom(p, e, node, seen) +
      if Downloads(p, e, node, a) then [a.packet.reply.value.second]
      else if Operates(p, e, node, a) || Tags(p, e, node, a)
      then [a.packet.reply.value.first, a.packet.reply.value.second]
      else []
  {
    assert (seen + [a])[..|seen|] == seen;
  }

  lemma AddressStays(p: Program, e: Envelope, node: Half, seen: seq<Arrival>, a: Arrival, address: Option<Word>)
    requires AddressIs(p, e, node, seen, address) && !Fails(p, e, node, a) && !Locates(p, e, node, a)
    ensures AddressIs(p, e, node, seen + [a], address)
  {
    MoreSeen(p, e, node, seen, a);
    if address.Some? {
      var k :| 0 <= k < |seen| && Locates(p, e, node, seen[k]) && seen[k].packet.reply.value.second == address.value &&
        forall j :: k < j < |seen| ==> !Locates(p, e, node, seen[j]);
      assert (seen + [a])[k] == seen[k];
    }
  }

  lemma AddressArrives(p: Program, e: Envelope, node: Half, seen: seq<Arrival>, a: Arrival)
    requires Locates(p, e, node, a) && !Failed(p, e, node, seen)
    ensures AddressIs(p, e, node, seen + [a], Some(a.packet.reply.value.second))
  {
    MoreSeen(p, e, node, seen, a);
    assert (seen + [a])[|seen|] == a;
  }

  lemma ReportStays(p: Program, e: Envelope, node: Half, seen: seq<Arrival>, a: Arrival, report: ExceptionReport)
    requires ReportIs(p, e, node, seen, report) && !Fails(p, e, node, a)
    ensures ReportIs(p, e, node, seen + [a], report)
  {
    var k :| 0 <= k < |seen| && LastFailureAt(p, e, node, seen, k, report);
    assert (seen + [a])[..k] == seen[..k];
    assert LastFailureAt(p, e, node, seen + [a], k, report);
  }

  lemma ReportArrives(p: Program, e: Envelope, node: Half, seen: seq<Arrival>, a: Arrival, address: Option<Word>)
    requires Fails(p, e, node, a) && AddressIs(p, e, node, seen, address)
    ensures ReportIs(p, e, node, seen + [a], ExceptionReport(a.packet.reply.value.second, address))
  {
    assert (seen + [a])[..|seen|] == seen;
    assert LastFailureAt(p, e, node, seen + [a], |seen|, ExceptionReport(a.packet.reply.value.second, address));
  }

  /** A packet that is no reply of the board leaves it where it is. */
  lemma ForeignStep(p: Program, e: Envelope, node: Half, seen: seq<Arrival>, s: Local, a: Arrival)
    requires BoardIs(p, e, node, seen, s) && !Reports(p, e, node, a)
    ensures BoardIs(p, e, node, seen + [a], s)
  {
    KindsOfReports(p, e, node, a);
    MoreSeen(p, e, node, seen, a);
    MoreWords(p, e, node, seen, a);
    AddressStays(p, e, node, seen, a, s.pending);
    if s.report.Some? {
      ReportStays(p, e, node, seen, a, s.report.value);
    }
  }

  predicate Preceded(p: Program, e: Envelope, node: Half, seen: seq<Arrival>, a: Arrival) {
    exists earlier | earlier in seen :: Clash(p, e, node, earlier, a)
  }

  lemma PrecededMeans(p: Program, e: Envelope, node: Half, seen: seq<Arrival>, a: Arrival)
    ensures Preceded(p, e, node, seen, a) <==>
      || ((Completed(p, e, node, seen) || Failed(p, e, node, seen)) &&
          (Locates(p, e, node, a) || Tags(p, e, node, a) || Completes(p, e, node, a)))
      || (Completed(p, e, node, seen) && Fails(p, e, node, a))
      || (Located(p, e, node, seen) && Completes(p, e, node, a))
  {
  }

  /** A reply of the board is refused exactly when it clashes with an earlier one. */
  lemma ReportRefused(p: Program, e: Envelope, node: Half, seen: seq<Arrival>, s: Local, a: Arrival)
    requires BoardIs(p, e, node, seen, s) && Reports(p, e, node, a)
    ensures Next(s, EventOf(a.packet.reply.value)).None? <==> Preceded(p, e, node, seen, a)
  {
    KindsOfReports(p, e, node, a);
    PrecededMeans(p, e, node, seen, a);
  }

  /** An accepted reply of the board moves it as its event does. */
  lemma ReportStep(p: Program, e: Envelope, node: Half, seen: seq<Arrival>, s: Local, a: Arrival, s': Local)
    requires BoardIs(p, e, node, seen, s) && Reports(p, e, node, a)
    requires Next(s, EventOf(a.packet.reply.value)) == Some(s')
    ensures BoardIs(p, e, node, seen + [a], s')
  {
    KindsOfReports(p, e, node, a);
    if Fails(p, e, node, a) {
      FailureStep(p, e, node, seen, s, a, s');
    } else if Locates(p, e, node, a) {
      AddressStep(p, e, node, seen, s, a, s');
    } else {
      OtherStep(p, e, node, seen, s, a, s');
    }
  }

  lemma FailureStep(p: Program, e: Envelope, node: Half, seen: seq<Arrival>, s: Local, a: Arrival, s': Local)
    requires BoardIs(p, e, node, seen, s) && Fails(p, e, node, a) && s.state != Succeeded
    requires s' == s.(state := DeviceFailed, pending := None,
      report := Some(ExceptionReport(a.packet.reply.value.second, s.pending)))
    ensures BoardIs(p, e, node, seen + [a], s')
  {
    KindsOfReports(p, e, node, a);
    MoreSeen(p, e, node, seen, a);
    MoreWords(p, e, node, seen, a);
    ReportArrives(p, e, node, seen, a, s.pending);
  }

  lemma AddressStep(p: Program, e: Envelope, node: Half, seen: seq<Arrival>, s: Local, a: Arrival, s': Local)
    requires BoardIs(p, e, node, seen, s) && Locates(p, e, node, a) && !s.state.IsTerminal()
    requires s' == s.(pending := Some(a.packet.reply.value.second))
    ensures BoardIs(p, e, node, seen + [a], s')
  {
    KindsOfReports(p, e, node, a);
    MoreSeen(p, e, node, seen, a);
    MoreWords(p, e, node, seen, a);
    AddressArrives(p, e, node, seen, a);
  }

  lemma OtherStep(p: Program, e: Envelope, node: Half, seen: seq<Arrival>, s: Local, a: Arrival, s': Local)
    requires BoardIs(p, e, node, seen, s) && Reports(p, e, node, a)
    requires !Fails(p, e, node, a) && !Locates(p, e, node, a)
    requires Next(s, EventOf(a.packet.reply.value)) == Some(s')
    ensures BoardIs(p, e, node, seen + [a], s')
  {
    KindsOfReports(p, e, node, a);
    MoreSeen(p, e, node, seen, a);
    MoreWords(p, e, node, seen, a);
    AddressStays(p, e, node, seen, a, s.pending);
    if s.report.Some? {
      ReportStays(p, e, node, seen, a, s.report.value);
    }
  }

  // ---- all packets and the boards' histories

  function HistoryOf(p: Program, c: Config, e: Envelope, x: Endpoint, seen: seq<Arrival>): seq<Event> {
    EventsOf(c.endpoints, RepliesIn(p, e, seen), x.address)
  }

  lemma BoardOfNode(c: Config, x: Endpoint, node: Half)
    requires ConfigOk(c) && x in c.endpoints
    ensures BoardForNode(c.endpoints, node) == Some(x.address) <==> node == x.node
  {
  }

  /** One more packet adds to a board's history exactly when it is a reply of the board. */
  lemma HistoryStep(p: Program, c: Config, e: Envelope, x: Endpoint, seen: seq<Arrival>, a: Arrival)
    requires ConfigOk(c) && x in c.endpoints
    ensures HistoryOf(p, c, e, x, seen + [a]) ==
      HistoryOf(p, c, e, x, seen) + if Reports(p, e, x.node, a) then [EventOf(a.packet.reply.value)] else []
  {
    var before := RepliesIn(p, e, seen);
    assert (seen + [a])[..|seen|] == seen;
    assert before + [] == before;
    assert HistoryOf(p, c, e, x, seen) + [] == HistoryOf(p, c, e, x, seen);
    if a.Received? && Relevant(p, e, a.packet) && a.packet.reply.Some? {
      var r := a.packet.reply.value;
      BoardOfNode(c, x, NodeOf(r));
      assert RepliesIn(p, e, seen + [a]) == before + [r];
      assert (before + [r])[..|before|] == before;
    }
  }

  /** A board is where the packets say its accepted history has brought it. */
  lemma {:induction false} BoardHistory(p: Program, c: Config, e: Envelope, x: Endpoint, seen: seq<Arrival>)
    requires ConfigOk(c) && x in c.endpoints && After(HistoryOf(p, c, e, x, seen)).Some?
    ensures BoardIs(p, e, x.node, seen, After(HistoryOf(p, c, e, x, seen)).value)
  {
    if seen != [] {
      var init, a := seen[..|seen| - 1], seen[|seen| - 1];
      assert init + [a] == seen;
      HistoryStep(p, c, e, x, init, a);
      var es := HistoryOf(p, c, e, x, init);
      if Reports(p, e, x.node, a) {
        AfterStep(es, EventOf(a.packet.reply.value));
        BoardHistory(p, c, e, x, init);
        ReportStep(p, e, x.node, init, After(es).value, a, After(es + [EventOf(a.packet.reply.value)]).value);
      } else {
        assert es + [] == es;
        BoardHistory(p, c, e, x, init);
        ForeignStep(p, e, x.node, init, After(es).value, a);
      }
    }
  }

  /** The next packet is refused by a board exactly when it clashes with an earlier one. */
  lemma HistoryRefused(p: Program, c: Config, e: Envelope, x: Endpoint, seen: seq<Arrival>, a: Arrival)
    requires ConfigOk(c) && x in c.endpoints && After(HistoryOf(p, c, e, x, seen)).Some?
    ensures After(HistoryOf(p, c, e, x, seen + [a])).None? <==> Preceded(p, e, x.node, seen, a)
  {
    HistoryStep(p, c, e, x, seen, a);
    KindsOfReports(p, e, x.node, a);
    var es := HistoryOf(p, c, e, x, seen);
    if Reports(p, e, x.node, a) {
      AfterStep(es, EventOf(a.packet.reply.value));
      BoardHistory(p, c, e, x, seen);
      ReportRefused(p, e, x.node, seen, After(es).value, a);
    } else {
      assert es + [] == es;
    }
  }

  /** No board has refused a packet so far. */
  predicate AcceptedAll(p: Program, c: Config, e: Envelope, seen: seq<Arrival>) {
    forall x | x in c.endpoints :: After(HistoryOf(p, c, e, x, seen)).Some?
  }

  lemma TakenIsNotRefused(p: Program, c: Config, e: Envelope, seen: seq<Arrival>, packet: Packet)
    requires ConfigOk(c) && AcceptedAll(p, c, e, seen) && AcceptedAll(p, c, e, seen + [Received(packet)])
    requires Relevant(p, e, packet) ==> packet.reply.Some?
    ensures !Refused(p, c, e, seen, Received(packet))
  {
    forall x, earlier | x in c.endpoints && earlier in seen
      ensures !Clash(p, e, x.node, earlier, Received(packet))
    {
      HistoryRefused(p, c, e, x, seen, Received(packet));
      assert !Preceded(p, e, x.node, seen, Received(packet));
    }
  }

  lemma ViolationIsRefused(p: Program, c: Config, e: Envelope, seen: seq<Arrival>, packet: Packet)
    requires ConfigOk(c) && AcceptedAll(p, c, e, seen)
    requires Violates(p, c, e, seen + [Received(packet)], packet)
    ensures Refused(p, c, e, seen, Received(packet))
  {
    if packet.reply.Some? {
      var node := NodeOf(packet.reply.value);
      var b := BoardForNode(c.endpoints, node).value;
      var x :| x in c.endpoints && x.node == node && x.address == b;
      AcceptedHistories(HistoryOf(p, c, e, x, seen + [Received(packet)]));
      HistoryRefused(p, c, e, x, seen, Received(packet));
      assert Preceded(p, e, x.node, seen, Received(packet));
    }
  }

  lemma GoingOn(p: Program, c: Config, e: Envelope, seen: seq<Arrival>, a: Arrival)
    requires Undecided(p, c, e, seen) && GoesOn(p, c, e, seen, a)
    ensures Undecided(p, c, e, seen + [a])
  {
    forall m | 0 <= m < |seen + [a]|
      ensures GoesOn(p, c, e, (seen + [a])[..m], (seen + [a])[m])
    {
      assert (seen + [a])[..m] == if m < |seen| then seen[..m] else seen;
    }
  }

  lemma SettledIsTerminal(p: Program, c: Config, e: Envelope, seen: seq<Arrival>, evidence: Evidence)
    requires EvidenceIs(p, c, e, seen, evidence) && evidence.Keys == Configured(c)
    ensures Settled(p, c, e, seen) <==> forall b | b in evidence :: evidence[b].IsTerminal()
  {
    if forall b | b in evidence :: evidence[b].IsTerminal() {
      forall x | x in c.endpoints
        ensures Completed(p, e, x.node, seen) || Failed(p, e, x.node, seen)
      {
        assert evidence[x.address].IsTerminal();
      }
    }
    if Settled(p, c, e, seen) {
      forall b | b in evidence
        ensures evidence[b].IsTerminal()
      {
        var i :| 0 <= i < |c.endpoints| && c.endpoints[i].address == b;
        assert c.endpoints[i] in c.endpoints;
      }
    }
  }

  // ---- what decides the outcome

  /** All of these arrive, none of them is refused, and every board completes. */
  predicate AllComplete(p: Program, c: Config, e: Envelope, seen: seq<Arrival>) {
    && (forall m :: 0 <= m < |seen| ==> seen[m].Received? && !Refused(p, c, e, seen[..m], seen[m]))
    && forall x | x in c.endpoints :: Completed(p, e, x.node, seen)
  }

  lemma PrefixGoesOn(p: Program, c: Config, e: Envelope, rest: seq<Arrival>, n: nat, m: nat)
    requires m < n <= |rest| && Undecided(p, c, e, rest[..n])
    ensures GoesOn(p, c, e, rest[..m], rest[m])
  {
    assert rest[..n][..m] == rest[..m] && rest[..n][m] == rest[m];
  }

  lemma ClashIsRefused(p: Program, c: Config, e: Envelope, x: Endpoint, seen: seq<Arrival>, i: nat, j: nat)
    requires i < j < |seen| && x in c.endpoints && Clash(p, e, x.node, seen[i], seen[j])
    ensures Refused(p, c, e, seen[..j], seen[j])
  {
    assert seen[..j][i] == seen[i];
    assert seen[i] in seen[..j];
  }

  lemma FailedLater(p: Program, e: Envelope, node: Half, rest: seq<Arrival>, n: nat, m: nat)
    requires n <= m <= |rest| && Failed(p, e, node, rest[..n])
    ensures Failed(p, e, node, rest[..m])
  {
    var a :| a in rest[..n] && Fails(p, e, node, a);
    assert a in rest[..m];
  }

  /** Where nothing is refused, a board that completes does not fail. */
  lemma CompletedHasNotFailed(p: Program, c: Config, e: Envelope, x: Endpoint, seen: seq<Arrival>)
    requires AllComplete(p, c, e, seen) && x in c.endpoints
    ensures !Failed(p, e, x.node, seen)
  {
    if Failed(p, e, x.node, seen) {
      var a :| a in seen && Completes(p, e, x.node, a);
      var b :| b in seen && Fails(p, e, x.node, b);
      var i :| 0 <= i < |seen| && seen[i] == a;
      var j :| 0 <= j < |seen| && seen[j] == b;
      if i < j {
        ClashIsRefused(p, c, e, x, seen, i, j);
      } else if j < i {
        ClashIsRefused(p, c, e, x, seen, j, i);
      }
    }
  }

  lemma AllCompleteSettles(p: Program, c: Config, e: Envelope, rest: seq<Arrival>, n: nat, m: nat,
      r: Result<Success, Failure>)
    requires Outcome(p, c, e, rest, n, r) && m <= |rest| && AllComplete(p, c, e, rest[..m])
    ensures n <= m && Settled(p, c, e, rest[..n])
  {
    assert Settled(p, c, e, rest[..m]);
    if m < n {
      PrefixGoesOn(p, c, e, rest, n, m);
    } else if n < m {
      assert rest[..m][..n] == rest[..n] && rest[..m][n] == rest[n];
    }
  }

  /** Success comes exactly when some of the arrivals, from the first on, complete all boards and none of these is
      refused. */
  lemma SucceedsExactly(p: Program, c: Config, e: Envelope, rest: seq<Arrival>, n: nat, r: Result<Success, Failure>)
    requires Outcome(p, c, e, rest, n, r)
    ensures r.Ok? <==> exists m :: 0 <= m <= |rest| && AllComplete(p, c, e, rest[..m])
    ensures r.Ok? ==> AllComplete(p, c, e, rest[..n])
    ensures forall m :: 0 <= m <= |rest| && AllComplete(p, c, e, rest[..m]) ==> n <= m
  {
    if r.Ok? {
      forall m | 0 <= m < n
        ensures rest[..n][m].Received? && !Refused(p, c, e, rest[..n][..m], rest[..n][m])
      {
        assert GoesOn(p, c, e, rest[..n][..m], rest[..n][m]);
      }
    }
    forall m: nat | m <= |rest| && AllComplete(p, c, e, rest[..m])
      ensures n <= m && r.Ok?
    {
      AllCompleteSettles(p, c, e, rest, n, m, r);
      if r.Err? {
        var x :| x in c.endpoints && Failed(p, e, x.node, rest[..n]);
        FailedLater(p, e, x.node, rest, n, m);
        CompletedHasNotFailed(p, c, e, x, rest[..m]);
      }
    }
  }

  /** One packet completes the board, and none reports a failure or an exception address. */
  predicate CompletedOnce(p: Program, e: Envelope, node: Half, seen: seq<Arrival>) {
    && Completed(p, e, node, seen) && !Failed(p, e, node, seen) && !Located(p, e, node, seen)
    && forall i, j | 0 <= i < j < |seen| :: !(Completes(p, e, node, seen[i]) && Completes(p, e, node, seen[j]))
  }

  /** After a success every board has completed once and sent no failure and no exception address. */
  lemma SuccessMeans(p: Program, c: Config, e: Envelope, rest: seq<Arrival>, n: nat, r: Result<Success, Failure>,
      x: Endpoint)
    requires Outcome(p, c, e, rest, n, r) && r.Ok? && x in c.endpoints
    ensures CompletedOnce(p, e, x.node, rest[..n])
  {
    var seen := rest[..n];
    SucceedsExactly(p, c, e, rest, n, r);
    CompletedHasNotFailed(p, c, e, x, seen);
    forall i, j | 0 <= i < j < |seen|
      ensures !(Completes(p, e, x.node, seen[i]) && Completes(p, e, x.node, seen[j]))
    {
      if Completes(p, e, x.node, seen[i]) && Completes(p, e, x.node, seen[j]) {
        ClashIsRefused(p, c, e, x, seen, i, j);
      }
    }
    CompletedHasNoAddress(p, c, e, x, seen);
  }

  lemma CompletedHasNoAddress(p: Program, c: Config, e: Envelope, x: Endpoint, seen: seq<Arrival>)
    requires AllComplete(p, c, e, seen) && x in c.endpoints
    ensures !Located(p, e, x.node, seen)
  {
    if Located(p, e, x.node, seen) {
      var a :| a in seen && Completes(p, e, x.node, a);
      var b :| b in seen && Locates(p, e, x.node, b);
      var i :| 0 <= i < |seen| && seen[i] == a;
      var j :| 0 <= j < |seen| && seen[j] == b;
      if i < j {
        ClashIsRefused(p, c, e, x, seen, i, j);
      } else if j < i {
        ClashIsRefused(p, c, e, x, seen, j, i);
      }
    }
  }

  /** Every board has exactly one packet, its completion, and no other packet is for the program. */
  predicate OnlyCompletions(p: Program, c: Config, e: Envelope, seen: seq<Arrival>) {
    && (forall a | a in seen :: a.Received?)
    && (forall x | x in c.endpoints :: Completed(p, e, x.node, seen))
    && (forall x, i, j | x in c.endpoints && 0 <= i < j < |seen| ::
      !(Completes(p, e, x.node, seen[i]) && Completes(p, e, x.node, seen[j])))
    && forall a | a in seen && ForProgram(p, e, a) :: exists x | x in c.endpoints :: Completes(p, e, x.node, a)
  }

  /** A program whose boards do nothing but complete has succeeded once they have. */
  lemma OnlyCompletionsSucceed(p: Program, c: Config, e: Envelope, rest: seq<Arrival>, n: nat,
      r: Result<Success, Failure>, m: nat)
    requires Outcome(p, c, e, rest, n, r) && m <= |rest| && OnlyCompletions(p, c, e, rest[..m])
    ensures r.Ok? && n <= m
  {
    OnlyCompletionsComplete(p, c, e, rest[..m]);
    SucceedsExactly(p, c, e, rest, n, r);
  }

  lemma OnlyCompletionsComplete(p: Program, c: Config, e: Envelope, seen: seq<Arrival>)
    requires OnlyCompletions(p, c, e, seen)
    ensures AllComplete(p, c, e, seen)
  {
    forall k | 0 <= k < |seen|
      ensures seen[k].Received? && !Refused(p, c, e, seen[..k], seen[k])
    {
      assert seen[k] in seen;
      forall x, earlier | x in c.endpoints && earlier in seen[..k]
        ensures !Clash(p, e, x.node, earlier, seen[k])
      {
        var i :| 0 <= i < k && seen[i] == earlier;
        OnlyOneCompletes(p, c, e, seen, x, i, k);
      }
    }
  }

  lemma OnlyOneCompletes(p: Program, c: Config, e: Envelope, seen: seq<Arrival>, x: Endpoint, i: nat, k: nat)
    requires OnlyCompletions(p, c, e, seen) && x in c.endpoints && i < k < |seen|
    ensures !Clash(p, e, x.node, seen[i], seen[k])
  {
    assert seen[i] in seen && seen[k] in seen;
    OnlyCompletes(p, c, e, seen, seen[i], x.node);
    OnlyCompletes(p, c, e, seen, seen[k], x.node);
  }

  lemma OnlyCompletes(p: Program, c: Config, e: Envelope, seen: seq<Arrival>, a: Arrival, node: Half)
    requires OnlyCompletions(p, c, e, seen) && a in seen
    ensures !Fails(p, e, node, a) && !Locates(p, e, node, a) && !Tags(p, e, node, a)
  {
  }

  lemma OutcomeStops(p: Program, c: Config, e: Envelope, rest: seq<Arrival>, n: nat, r: Result<Success, Failure>)
    requires Outcome(p, c, e, rest, n, r) && n < |rest|
    ensures !GoesOn(p, c, e, rest[..n], rest[n])
  {
  }

  function CodeAt(settled: bool, rest: seq<Arrival>, n: nat): FailureCode {
    if settled then DeviceException
    else if n >= |rest| || rest[n].DeadlinePassed? then CompletionTimeout
    else if rest[n].ReceiveFailed? then TransportReceiveFailed
    else ProtocolViolation
  }

  lemma OutcomeAt(p: Program, c: Config, e: Envelope, rest: seq<Arrival>, n: nat, r: Result<Success, Failure>)
    requires Outcome(p, c, e, rest, n, r)
    ensures r.Ok? <==> Settled(p, c, e, rest[..n]) && forall x | x in c.endpoints :: !Failed(p, e, x.node, rest[..n])
    ensures r.Err? ==> r.error.code == CodeAt(Settled(p, c, e, rest[..n]), rest, n)
  {
  }

  /** The arrivals decide how far the watch goes, whether it succeeds, and how it fails. */
  lemma OutcomeIsDecided(p: Program, c: Config, e: Envelope, rest: seq<Arrival>, n: nat, r: Result<Success, Failure>,
      n': nat, r': Result<Success, Failure>)
    requires Outcome(p, c, e, rest, n, r) && Outcome(p, c, e, rest, n', r')
    ensures n == n' && (r.Ok? <==> r'.Ok?) && (r.Err? ==> r.error.code == r'.error.code)
  {
    OutcomeAt(p, c, e, rest, n, r);
    OutcomeAt(p, c, e, rest, n', r');
    if n < n' {
      OutcomeStops(p, c, e, rest, n, r);
      PrefixGoesOn(p, c, e, rest, n', n);
    } else if n' < n {
      OutcomeStops(p, c, e, rest, n', r');
      PrefixGoesOn(p, c, e, rest, n, n');
    }
  }
}
