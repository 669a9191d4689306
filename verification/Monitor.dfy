/** Watching the replies of launched boards until every board is in a terminal state. */
module Monitor {
  import opened Common
  import opened Isa
  import opened Runtime
  import opened Dispatch
  import opened Replies
  import opened Outcomes

  predicate AllLaunched(evidence: Evidence) {
    forall b | b in evidence :: evidence[b] == LaunchSubmitted
  }

  predicate AllTerminal(evidence: Evidence) {
    forall b | b in evidence :: evidence[b].IsTerminal()
  }

  /** The boards under observation are those of the configuration. */
  predicate Covers(c: Config, evidence: Evidence) {
    ConfigOk(c) && evidence.Keys == Configured(c)
  }

  /** The outcome is the one the arrivals from `start` on decide; at most one of those taken was not applied. */
  ghost predicate Watched(p: Program, c: Config, e: Envelope, arrivals: seq<Arrival>, start: nat, taken: nat,
      r: Result<Success, Failure>) {
    start <= taken <= |arrivals| && exists n: nat ::
      && start + n <= taken <= start + n + 1 && (r.Ok? ==> taken == start + n)
      && Outcome(p, c, e, arrivals[start..], n, r)
  }

  class Observation {
    var evidence: Evidence
    var exceptions: map<OasmAddress, ExceptionReport>
    var pending: map<OasmAddress, Word>
    var results: map<OasmAddress, seq<Word>>

    constructor (evidence: Evidence)
      ensures this.evidence == evidence && exceptions == map[] && pending == map[] && results == map[]
    {
      this.evidence := evidence;
      exceptions, pending, results := map[], map[], map[];
    }

    /** What is held about one board. */
    function Board(b: OasmAddress): Local
      requires b in evidence
      reads this
    {
      Local(evidence[b],
        if b in exceptions then Some(exceptions[b]) else None,
        if b in pending then Some(pending[b]) else None,
        if b in results then results[b] else [])
    }

    predicate Valid()
      reads this
    {
      exceptions.Keys <= evidence.Keys && pending.Keys <= evidence.Keys && results.Keys <= evidence.Keys
    }

    /** Every board is where its own events, and nothing else, have brought it. */
    ghost predicate Tracks(es: seq<Endpoint>, replies: seq<Reply>)
      reads this
    {
      && Valid()
      && forall b {:trigger EventsOf(es, replies, b)} | b in evidence ::
        After(EventsOf(es, replies, b)) == Some(Board(b))
    }

    method PushResult(b: OasmAddress, words: seq<Word>)
      requires Valid() && b in evidence && words != []
      modifies `results
      ensures Valid() && Board(b) == old(Board(b)).(data := old(Board(b)).data + words)
      ensures forall o | o in evidence && o != b :: Board(o) == old(Board(o))
    {
      results := results[b := (if b in results then results[b] else []) + words];
    }

    /** A reply on the download channel: an exception address, a failure, or data. */
    method ApplyDownload(b: OasmAddress, info: nat, word: Word, ghost e: Event) returns (ok: bool)
      requires Valid() && b in evidence
      requires e == if info == 1 then AddressReported(word) else if info == 0 then FailureReported(word)
        else DownloadData(word)
      modifies this
      ensures Valid() && evidence.Keys == old(evidence.Keys)
      ensures ok <==> Next(old(Board(b)), e).Some?
      ensures ok ==> Next(old(Board(b)), e) == Some(Board(b))
      ensures forall o | o in evidence && o != b :: Board(o) == old(Board(o))
      ensures !ok ==>
        evidence == old(evidence) && exceptions == old(exceptions) && pending == old(pending) && results == old(results)
    {
      if info == 1 {
        if evidence[b].IsTerminal() {
          return false;
        }
        pending := pending[b := word];
      } else if info == 0 {
        if evidence[b] == Succeeded {
          return false;
        }
        evidence := evidence[b := DeviceFailed];
        exceptions := exceptions[b := ExceptionReport(word, if b in pending then Some(pending[b]) else None)];
        pending := pending - {b};
      } else {
        PushResult(b, [word]);
      }
      return true;
    }

    /** A reply with the operation tag: a completion, data, or nothing. */
    method ApplyOperation(b: OasmAddress, first: Word, second: Word, ghost e: Event) returns (ok: bool)
      requires Valid() && b in evidence
      requires e == if second == 0 &&
        first / 0x1_0000 == 0 then Completion else if second != 0 then OperationData(first, second) else Silent
      modifies this
      ensures Valid() && evidence.Keys == old(evidence.Keys)
      ensures ok <==> Next(old(Board(b)), e).Some?
      ensures ok ==> Next(old(Board(b)), e) == Some(Board(b))
      ensures forall o | o in evidence && o != b :: Board(o) == old(Board(o))
      ensures !ok ==>
        evidence == old(evidence) && exceptions == old(exceptions) && pending == old(pending) && results == old(results)
    {
      var argumentCount := first / 0x1_0000;
      if second == 0 && argumentCount == 0 {
        if b in pending || evidence[b] == DeviceFailed || evidence[b] == Succeeded {
          return false;
        }
        evidence := evidence[b := Succeeded];
      } else if second != 0 {
        PushResult(b, [first, second]);
      }
      return true;
    }

    /** Tagged result data. */
    method ApplyData(b: OasmAddress, first: Word, second: Word, ghost e: Event) returns (ok: bool)
      requires Valid() && b in evidence && e == TaggedData(first, second)
      modifies this
      ensures Valid() && evidence.Keys == old(evidence.Keys)
      ensures ok <==> Next(old(Board(b)), e).Some?
      ensures ok ==> Next(old(Board(b)), e) == Some(Board(b))
      ensures forall o | o in evidence && o != b :: Board(o) == old(Board(o))
      ensures !ok ==>
        evidence == old(evidence) && exceptions == old(exceptions) && pending == old(pending) && results == old(results)
    {
      if evidence[b].IsTerminal() {
        return false;
      }
      PushResult(b, [first, second]);
      return true;
    }

    /** One decoded reply. A violation leaves everything as it was. */
    method ApplyFrame(c: Config, r: Reply) returns (ok: bool)
      requires Valid()
      requires forall e | e in c.endpoints :: e.address in evidence
      modifies this
      ensures Valid() && evidence.Keys == old(evidence.Keys)
      ensures BoardForNode(c.endpoints, NodeOf(r)).None? ==> ok && forall b | b in evidence :: Board(b) == old(Board(b))
      ensures var node := BoardForNode(c.endpoints, NodeOf(r));
        node.Some? ==>
          && (ok <==> Next(old(Board(node.value)), EventOf(r)).Some?)
          && (ok ==> Next(old(Board(node.value)), EventOf(r)) == Some(Board(node.value)))
          && forall b | b in evidence && b != node.value :: Board(b) == old(Board(b))
      ensures !ok ==>
        evidence == old(evidence) && exceptions == old(exceptions) && pending == old(pending) && results == old(results)
    {
      var node := if r.flag == DOWNLOAD_FLAG || r.tag == OPERATION_TAG then r.first % 0x1_0000 else r.tag % 0x1_0000;
      var board := BoardForNode(c.endpoints, node);
      if board.None? {
        return true;
      }
      if r.flag == DOWNLOAD_FLAG {
        ok := ApplyDownload(board.value, r.first / 0x10_0000, r.second, EventOf(r));
      } else if r.tag == OPERATION_TAG {
        ok := ApplyOperation(board.value, r.first, r.second, EventOf(r));
      } else {
        ok := ApplyData(board.value, r.first, r.second, EventOf(r));
      }
    }

    /** One received packet: skipped, applied, or refused. */
    method Observe(p: Program, c: Config, envelope: Envelope, packet: Packet, ghost before: seq<Arrival>,
        ghost after: seq<Arrival>)
      returns (ok: bool)
      requires after == before + [Received(packet)]
      requires Tracks(c.endpoints, RepliesIn(p, envelope, before))
      requires forall e | e in c.endpoints :: e.address in evidence
      modifies this
      ensures evidence.Keys == old(evidence.Keys)
      ensures ok ==> Tracks(c.endpoints, RepliesIn(p, envelope, after))
      ensures !ok ==> Tracks(c.endpoints, RepliesIn(p, envelope, before)) && evidence == old(evidence)
      ensures !ok ==> Violates(p, c, envelope, after, packet)
      ensures ok && Relevant(p, envelope, packet) ==> packet.reply.Some?
      ensures !ForProgram(p, envelope, Received(packet)) ==>
        ok && evidence == old(evidence) && exceptions == old(exceptions) && pending == old(pending) &&
        results == old(results)
    {
      ghost var replies := RepliesIn(p, envelope, before);
      RepliesStep(p, envelope, before, packet, after);
      if !Relevant(p, envelope, packet) {
        return true;
      }
      if packet.reply.None? {
        return false;
      }
      ok := Accept(c, packet.reply.value, replies, RepliesIn(p, envelope, after));
    }

    method Accept(c: Config, r: Reply, ghost before: seq<Reply>, ghost after: seq<Reply>) returns (ok: bool)
      requires after == before + [r] && Tracks(c.endpoints, before)
      requires forall e | e in c.endpoints :: e.address in evidence
      modifies this
      ensures evidence.Keys == old(evidence.Keys)
      ensures ok ==> Tracks(c.endpoints, after)
      ensures !ok ==> Tracks(c.endpoints, before) && evidence == old(evidence)
      ensures !ok ==> Clashes(c, after, r)
    {
      ghost var was := map b | b in evidence :: Board(b);
      ReplyStep(c.endpoints, before, r, was, after);
      ok := ApplyFrame(c, r);
      if !ok {
        AcceptedHistories(EventsOf(c.endpoints, after, BoardForNode(c.endpoints, NodeOf(r)).value));
      }
    }

    /** Receive and apply until every board is terminal or something stops it short. */
    method Follow(p: Program, c: Config, t: Transport) returns (stopped: Option<FailureCode>, ghost seen: seq<Arrival>)
      requires AllLaunched(evidence) && exceptions == map[] && pending == map[] && results == map[]
      requires forall e | e in c.endpoints :: e.address in evidence
      requires t.taken <= |t.arrivals|
      modifies this, t`taken
      ensures evidence.Keys == old(evidence.Keys)
      ensures Applied(t.arrivals, old(t.taken), t.taken, seen) && Tracks(c.endpoints, RepliesIn(p, t.envelope, seen))
      ensures AllTerminal(evidence) <==> stopped.None?
      ensures stopped.None? ==> old(t.taken) + |seen| == t.taken
      ensures stopped.Some? ==>
        StoppedBy(p, c, t.envelope, seen, stopped.value, Cause(t.arrivals, old(t.taken) + |seen|))
      ensures Covers(c, old(evidence)) ==> Undecided(p, c, t.envelope, seen)
    {
      ghost var start := t.taken;
      seen := [];
      while !AllTerminal(evidence)
        invariant start + |seen| == t.taken && evidence.Keys == old(evidence.Keys)
        invariant Applied(t.arrivals, start, t.taken, seen) && Tracks(c.endpoints, RepliesIn(p, t.envelope, seen))
        invariant Covers(c, old(evidence)) ==> Undecided(p, c, t.envelope, seen)
        decreases |t.arrivals| - t.taken
      {
        var a := t.Receive();
        assert a == Cause(t.arrivals, start + |seen|);
        if a.DeadlinePassed? {
          return Some(CompletionTimeout), seen;
        }
        if a.ReceiveFailed? {
          return Some(TransportReceiveFailed), seen;
        }
        SliceStep(t.arrivals, start, seen);
        StillOpen(p, c, t.envelope, seen);
        var ok := Observe(p, c, t.envelope, a.packet, seen, seen + [a]);
        if !ok {
          assert StoppedBy(p, c, t.envelope, seen, ProtocolViolation, a);
          return Some(ProtocolViolation), seen;
        }
        PacketTaken(p, c, t.envelope, seen, a.packet);
        seen := seen + [a];
      }
      stopped := None;
    }

    /** The monitor: success exactly when every board reported its own successful completion. */
    method Watch(p: Program, c: Config, t: Transport) returns (r: Result<Success, Failure>, ghost seen: seq<Arrival>)
      requires evidence.Keys != {} && AllLaunched(evidence) && exceptions == map[] && pending == map[]
      requires results == map[]
      requires forall e | e in c.endpoints :: e.address in evidence
      requires t.taken <= |t.arrivals|
      modifies this, t`taken
      ensures evidence.Keys == old(evidence.Keys)
      ensures Applied(t.arrivals, old(t.taken), t.taken, seen) && Tracks(c.endpoints, RepliesIn(p, t.envelope, seen))
      ensures r.Ok? ==>
        old(t.taken) + |seen| == t.taken && r.value == Success(evidence, results) && SuccessValid(r.value)
      ensures r.Err? ==> FailureValid(r.error) && r.error == Fail(r.error.code, evidence, exceptions)
      ensures r.Err? ==> r.error.certainty == if r.error.code == DeviceException then FullyObserved else Indeterminate
      ensures r.Err? && r.error.code == DeviceException ==> old(t.taken) + |seen| == t.taken && AllTerminal(evidence)
      ensures r.Err? && r.error.code != DeviceException ==>
        !AllTerminal(evidence) && StoppedBy(p, c, t.envelope, seen, r.error.code,
          Cause(t.arrivals, old(t.taken) + |seen|))
      ensures Covers(c, old(evidence)) ==> Watched(p, c, t.envelope, t.arrivals, old(t.taken), t.taken, r)
    {
      ghost var rest := t.arrivals[t.taken..];
      var stopped;
      stopped, seen := Follow(p, c, t);
      LaunchedOrTerminal(c.endpoints, RepliesIn(p, t.envelope, seen));
      if stopped.Some? {
        r := Err(Fail(stopped.value, evidence, exceptions));
      } else if exceptions == map[] {
        r := Ok(Success(evidence, results));
      } else {
        r := Err(Fail(DeviceException, evidence, exceptions));
      }
      if Covers(c, evidence) {
        assert rest[..|seen|] == seen;
        OutcomeHolds(p, c, t.envelope, rest, seen, stopped, r);
      }
    }

    /** What is held about the boards is what the packets say. */
    lemma ObservedIs(p: Program, c: Config, e: Envelope, seen: seq<Arrival>)
      requires Tracks(c.endpoints, RepliesIn(p, e, seen)) && Covers(c, evidence)
      ensures AcceptedAll(p, c, e, seen) && EvidenceIs(p, c, e, seen, evidence)
      ensures ReportsAre(p, c, e, seen, exceptions) && ResultsAre(p, c, e, seen, results)
    {
      forall x | x in c.endpoints
        ensures x.address in evidence && After(HistoryOf(p, c, e, x, seen)) == Some(Board(x.address))
        ensures BoardIs(p, e, x.node, seen, Board(x.address))
      {
        assert x.address in Configured(c);
        assert After(EventsOf(c.endpoints, RepliesIn(p, e, seen), x.address)) == Some(Board(x.address));
        BoardHistory(p, c, e, x, seen);
      }
    }

    lemma StillOpen(p: Program, c: Config, e: Envelope, seen: seq<Arrival>)
      requires Tracks(c.endpoints, RepliesIn(p, e, seen)) && !AllTerminal(evidence)
      ensures Covers(c, evidence) ==> !Settled(p, c, e, seen) && AcceptedAll(p, c, e, seen)
    {
      if Covers(c, evidence) {
        ObservedIs(p, c, e, seen);
        SettledIsTerminal(p, c, e, seen, evidence);
      }
    }

    lemma PacketTaken(p: Program, c: Config, e: Envelope, seen: seq<Arrival>, packet: Packet)
      requires Tracks(c.endpoints, RepliesIn(p, e, seen + [Received(packet)]))
      requires Relevant(p, e, packet) ==> packet.reply.Some?
      requires Covers(c, evidence) ==>
        !Settled(p, c, e, seen) && AcceptedAll(p, c, e, seen) && Undecided(p, c, e, seen)
      ensures Covers(c, evidence) ==> Undecided(p, c, e, seen + [Received(packet)])
    {
      if Covers(c, evidence) {
        ObservedIs(p, c, e, seen + [Received(packet)]);
        TakenIsNotRefused(p, c, e, seen, packet);
        GoingOn(p, c, e, seen, Received(packet));
      }
    }

    lemma OutcomeHolds(p: Program, c: Config, e: Envelope, rest: seq<Arrival>, seen: seq<Arrival>,
        stopped: Option<FailureCode>, r: Result<Success, Failure>)
      requires |seen| <= |rest| && rest[..|seen|] == seen && Undecided(p, c, e, seen)
      requires Tracks(c.endpoints, RepliesIn(p, e, seen)) && Covers(c, evidence)
      requires AllTerminal(evidence) <==> stopped.None?
      requires stopped.Some? ==> StoppedBy(p, c, e, seen, stopped.value, Cause(rest, |seen|))
      requires r == if stopped.Some? then Err(Fail(stopped.value, evidence, exceptions))
        else if exceptions == map[] then Ok(Success(evidence, results))
        else Err(Fail(DeviceException, evidence, exceptions))
      ensures Outcome(p, c, e, rest, |seen|, r)
    {
      ObservedIs(p, c, e, seen);
      SettledIsTerminal(p, c, e, seen, evidence);
      if stopped.Some? {
        StopIsEnd(p, c, e, rest, seen, stopped.value);
        StoppedOutcome(p, c, e, rest, |seen|, evidence, exceptions, stopped.value);
      } else {
        SettledOutcome(p, c, e, rest, |seen|, evidence, exceptions, results);
      }
    }

    /** Evidence under observation: every board is launched or terminal, and reports exist for failed boards only. */
    lemma LaunchedOrTerminal(es: seq<Endpoint>, replies: seq<Reply>)
      requires Tracks(es, replies) && evidence.Keys != {}
      ensures forall b | b in evidence :: evidence[b] == LaunchSubmitted || evidence[b].IsTerminal()
      ensures forall b | b in evidence :: b in exceptions <==> evidence[b] == DeviceFailed
      ensures forall b | b in pending :: !evidence[b].IsTerminal()
      ensures DeriveCertainty(evidence) == if AllTerminal(evidence) then FullyObserved else Indeterminate
    {
      forall b | b in evidence
        ensures evidence[b] == LaunchSubmitted || evidence[b].IsTerminal()
        ensures b in exceptions <==> evidence[b] == DeviceFailed
        ensures b in pending ==> !evidence[b].IsTerminal()
      {
        BoardOutcome(EventsOf(es, replies, b));
        assert After(EventsOf(es, replies, b)) == Some(Board(b));
      }
      var b :| b in evidence.Keys;
      assert b in evidence;
    }
  }

  /** The arrivals applied are those the transport handed out, save perhaps the one that ended the watch. */
  predicate Applied(arrivals: seq<Arrival>, start: nat, taken: nat, seen: seq<Arrival>) {
    && start + |seen| <= taken <= start + |seen| + 1 && taken <= |arrivals|
    && seen == arrivals[start..start + |seen|]
  }

  /** The arrival that met the watch next; the deadline once there are none. */
  function Cause(arrivals: seq<Arrival>, k: nat): Arrival {
    if k < |arrivals| then arrivals[k] else DeadlinePassed
  }

  /** Why the watch stopped short. */
  predicate StoppedBy(p: Program, c: Config, e: Envelope, seen: seq<Arrival>, code: FailureCode, cause: Arrival) {
    match cause
    case DeadlinePassed => code == CompletionTimeout
    case ReceiveFailed => code == TransportReceiveFailed
    case Received(packet) => code == ProtocolViolation && Violates(p, c, e, seen + [cause], packet)
  }

  lemma StopIsEnd(p: Program, c: Config, e: Envelope, rest: seq<Arrival>, seen: seq<Arrival>, code: FailureCode)
    requires ConfigOk(c) && |seen| <= |rest| && rest[..|seen|] == seen && AcceptedAll(p, c, e, seen)
    requires StoppedBy(p, c, e, seen, code, Cause(rest, |seen|))
    ensures EndedBy(p, c, e, rest, |seen|, code)
  {
    if Cause(rest, |seen|).Received? {
      ViolationIsRefused(p, c, e, seen, rest[|seen|].packet);
    }
  }

  lemma StoppedOutcome(p: Program, c: Config, e: Envelope, rest: seq<Arrival>, n: nat, evidence: Evidence,
      exceptions: map<OasmAddress, ExceptionReport>, code: FailureCode)
    requires n <= |rest| && Undecided(p, c, e, rest[..n]) && EvidenceIs(p, c, e, rest[..n], evidence)
    requires ReportsAre(p, c, e, rest[..n], exceptions)
    requires !Settled(p, c, e, rest[..n]) && EndedBy(p, c, e, rest, n, code)
    ensures Outcome(p, c, e, rest, n, Err(Fail(code, evidence, exceptions)))
  {
  }

  lemma SettledOutcome(p: Program, c: Config, e: Envelope, rest: seq<Arrival>, n: nat, evidence: Evidence,
      exceptions: map<OasmAddress, ExceptionReport>, results: map<OasmAddress, seq<Word>>)
    requires n <= |rest| && Undecided(p, c, e, rest[..n]) && EvidenceIs(p, c, e, rest[..n], evidence)
    requires ReportsAre(p, c, e, rest[..n], exceptions) && ResultsAre(p, c, e, rest[..n], results)
    requires Settled(p, c, e, rest[..n]) && exceptions.Keys <= Configured(c)
    ensures exceptions == map[] ==> Outcome(p, c, e, rest, n, Ok(Success(evidence, results)))
    ensures exceptions != map[] ==> Outcome(p, c, e, rest, n, Err(Fail(DeviceException, evidence, exceptions)))
  {
    if exceptions != map[] {
      var b :| b in exceptions;
      assert b in Configured(c);
      var x :| x in c.endpoints && x.address == b;
      assert Failed(p, e, x.node, rest[..n]);
    }
  }

  lemma SliceStep(arrivals: seq<Arrival>, start: nat, seen: seq<Arrival>)
    requires start + |seen| < |arrivals| && seen == arrivals[start..start + |seen|]
    ensures seen + [arrivals[start + |seen|]] == arrivals[start..start + |seen| + 1]
  {
  }
}
