/** Offering every prepared frame to a transport that may accept, refuse, or leave acceptance unknown. */
module Dispatch {
  import opened Common
  import opened Isa
  import opened Runtime

  datatype SendOutcome = Accepted | NotAccepted | AcceptanceUnknown

  /** One call of the transport's send. */
  datatype Offer = Offer(frame: Frame, outcome: SendOutcome) {
    /** The device may hold the frame. */
    predicate Submitted() {
      outcome != NotAccepted
    }
  }

  // ---- the runs of the dispatcher

  /** All offers from here on: the frames not yet accepted, and how often the first was refused already. A
      refused frame is offered again while the budget lasts; only an acceptance moves on. */
  function RunOf(fs: seq<Frame>, budget: nat, rejected: nat, sends: nat -> SendOutcome, call: nat): (log: seq<Offer>)
    requires rejected <= budget
    decreases |fs|, budget - rejected
  {
    if fs == [] then []
    else if sends(call) == Accepted then [Offer(fs[0], Accepted)] + RunOf(fs[1..], budget, 0, sends, call + 1)
    else if sends(call) == NotAccepted && rejected < budget
    then [Offer(fs[0], NotAccepted)] + RunOf(fs, budget, rejected + 1, sends, call + 1)
    else [Offer(fs[0], sends(call))]
  }

  function Last(log: seq<Offer>): Offer
    requires log != []
  {
    log[|log| - 1]
  }

  predicate DistinctFrames(fs: seq<Frame>) {
    forall i, j :: 0 <= i < j < |fs| ==> fs[i] != fs[j]
  }

  /** The frames whose offer was accepted, in the order of acceptance. */
  function AcceptedFrames(log: seq<Offer>): seq<Frame> {
    if log == [] then []
    else if log[0].outcome == Accepted then [log[0].frame] + AcceptedFrames(log[1..])
    else AcceptedFrames(log[1..])
  }

  function OfferCount(log: seq<Offer>, f: Frame): nat {
    if log == [] then 0 else (if log[0].frame == f then 1 else 0) + OfferCount(log[1..], f)
  }

  lemma {:induction false} RunStaysInSchedule(fs: seq<Frame>, budget: nat, rejected: nat,
      sends: nat -> SendOutcome, call: nat, i: nat)
    requires rejected <= budget && i < |RunOf(fs, budget, rejected, sends, call)|
    ensures RunOf(fs, budget, rejected, sends, call)[i].frame in fs
    decreases |fs|, budget - rejected
  {
    if i > 0 {
      if sends(call) == Accepted {
        RunStaysInSchedule(fs[1..], budget, 0, sends, call + 1, i - 1);
      } else if sends(call) == NotAccepted && rejected < budget {
        RunStaysInSchedule(fs, budget, rejected + 1, sends, call + 1, i - 1);
      }
    }
  }

  /** How far the schedule got. */
  predicate PrefixAccepted(fs: seq<Frame>, log: seq<Offer>) {
    && AcceptedFrames(log) <= fs
    && (AcceptedFrames(log) == fs <==> log == [] || Last(log).outcome == Accepted)
    && (AcceptedFrames(log) != fs ==> Last(log).frame == fs[|AcceptedFrames(log)|])
  }

  /** The accepted frames are a prefix of the schedule, in its order; unless it is all of it, the run ended
      on an offer of the first frame that was not accepted. */
  lemma {:induction false} AcceptedPrefix(fs: seq<Frame>, budget: nat, rejected: nat, sends: nat -> SendOutcome,
      call: nat)
    requires rejected <= budget
    ensures PrefixAccepted(fs, RunOf(fs, budget, rejected, sends, call))
    decreases |fs|, budget - rejected
  {
    if fs != [] {
      if sends(call) == Accepted {
        AcceptedPrefix(fs[1..], budget, 0, sends, call + 1);
        AcceptedStep(fs, RunOf(fs[1..], budget, 0, sends, call + 1));
      } else if sends(call) == NotAccepted && rejected < budget {
        AcceptedPrefix(fs, budget, rejected + 1, sends, call + 1);
        RefusedStep(fs, RunOf(fs, budget, rejected + 1, sends, call + 1));
      } else {
        AcceptedOfOne(Offer(fs[0], sends(call)));
      }
    }
  }

  lemma AcceptedOfOne(o: Offer)
    ensures AcceptedFrames([o]) == if o.outcome == Accepted then [o.frame] else []
  {
    assert [o][1..] == [];
  }

  lemma AcceptedStep(fs: seq<Frame>, rest: seq<Offer>)
    requires fs != [] && PrefixAccepted(fs[1..], rest)
    ensures PrefixAccepted(fs, [Offer(fs[0], Accepted)] + rest)
  {
    var log := [Offer(fs[0], Accepted)] + rest;
    assert log[1..] == rest;
    assert fs == [fs[0]] + fs[1..];
    if rest != [] {
      assert Last(log) == Last(rest);
    }
  }

  lemma RefusedStep(fs: seq<Frame>, rest: seq<Offer>)
    requires fs != [] && rest != [] && PrefixAccepted(fs, rest)
    ensures PrefixAccepted(fs, [Offer(fs[0], NotAccepted)] + rest)
  {
    var log := [Offer(fs[0], NotAccepted)] + rest;
    assert log[1..] == rest;
    assert Last(log) == Last(rest);
  }

  /** No frame is offered more often than the retry budget allows. */
  lemma {:induction false} OfferedWithinBudget(fs: seq<Frame>, budget: nat, rejected: nat,
      sends: nat -> SendOutcome, call: nat, f: Frame)
    requires rejected <= budget && DistinctFrames(fs)
    ensures OfferCount(RunOf(fs, budget, rejected, sends, call), f) <=
      if f !in fs then 0 else if f == fs[0] then budget + 1 - rejected else budget + 1
    decreases |fs|, budget - rejected
  {
    if fs != [] {
      if sends(call) == Accepted {
        OfferedWithinBudget(fs[1..], budget, 0, sends, call + 1, f);
        CountStep(Offer(fs[0], Accepted), RunOf(fs[1..], budget, 0, sends, call + 1), f);
        assert fs == [fs[0]] + fs[1..];
      } else if sends(call) == NotAccepted && rejected < budget {
        OfferedWithinBudget(fs, budget, rejected + 1, sends, call + 1, f);
        CountStep(Offer(fs[0], NotAccepted), RunOf(fs, budget, rejected + 1, sends, call + 1), f);
      } else {
        CountStep(Offer(fs[0], sends(call)), [], f);
      }
    }
  }

  lemma CountStep(o: Offer, rest: seq<Offer>, f: Frame)
    ensures OfferCount([o] + rest, f) == (if o.frame == f then 1 else 0) + OfferCount(rest, f)
  {
    assert ([o] + rest)[1..] == rest;
    assert [o] + [] == [o];
  }

  /** A frame that was accepted is never offered again, and unknown acceptance ends the run. */
  lemma {:induction false} SubmittedNotOfferedAgain(fs: seq<Frame>, budget: nat, rejected: nat,
      sends: nat -> SendOutcome, call: nat, i: nat, j: nat)
    requires rejected <= budget && DistinctFrames(fs)
    requires i < j < |RunOf(fs, budget, rejected, sends, call)|
    ensures var log := RunOf(fs, budget, rejected, sends, call);
      log[i].outcome != AcceptanceUnknown && (log[i].outcome == Accepted ==> log[j].frame != log[i].frame)
    decreases |fs|, budget - rejected
  {
    if sends(call) == Accepted {
      RunStaysInSchedule(fs[1..], budget, 0, sends, call + 1, j - 1);
      if i > 0 {
        SubmittedNotOfferedAgain(fs[1..], budget, 0, sends, call + 1, i - 1, j - 1);
      }
    } else if i > 0 {
      SubmittedNotOfferedAgain(fs, budget, rejected + 1, sends, call + 1, i - 1, j - 1);
    }
  }

  /** A run stops short only on unknown acceptance, or when a frame has used up its whole budget. */
  lemma {:induction false} StopsOnlyOnEvidence(fs: seq<Frame>, budget: nat, rejected: nat,
      sends: nat -> SendOutcome, call: nat, log: seq<Offer>)
    requires rejected <= budget && DistinctFrames(fs) && log == RunOf(fs, budget, rejected, sends, call)
    requires log != [] && Last(log).outcome == NotAccepted
    ensures OfferCount(log, Last(log).frame) == if Last(log).frame == fs[0] then budget + 1 - rejected else budget + 1
    decreases |fs|, budget - rejected
  {
    var f := Last(log).frame;
    if sends(call) == Accepted {
      var rest := RunOf(fs[1..], budget, 0, sends, call + 1);
      StopsOnlyOnEvidence(fs[1..], budget, 0, sends, call + 1, rest);
      RunStaysInSchedule(fs[1..], budget, 0, sends, call + 1, |rest| - 1);
      CountStep(Offer(fs[0], Accepted), rest, f);
    } else if sends(call) == NotAccepted && rejected < budget {
      var rest := RunOf(fs, budget, rejected + 1, sends, call + 1);
      StopsOnlyOnEvidence(fs, budget, rejected + 1, sends, call + 1, rest);
      CountStep(Offer(fs[0], NotAccepted), rest, f);
    } else {
      CountStep(Offer(fs[0], sends(call)), [], f);
    }
  }

  // ---- evidence

  function Advanced(evidence: Evidence, f: Frame): Evidence
    requires f.board in evidence
  {
    var next := if f.launch then LaunchSubmitted else LoaderSubmitted;
    if evidence[f.board].Rank() < next.Rank() then evidence[f.board := next] else evidence
  }

  predicate OnBoards(log: seq<Offer>, evidence: Evidence) {
    forall i :: 0 <= i < |log| ==> log[i].frame.board in evidence
  }

  /** The evidence after a log of offers. */
  function EvidenceAfter(evidence: Evidence, log: seq<Offer>): (e: Evidence)
    requires OnBoards(log, evidence)
    ensures e.Keys == evidence.Keys
  {
    if log == [] then evidence else
      var before := EvidenceAfter(evidence, log[..|log| - 1]);
      if Last(log).Submitted() then Advanced(before, Last(log).frame) else before
  }

  predicate SubmittedTo(log: seq<Offer>, b: OasmAddress, launch: bool) {
    exists i :: 0 <= i < |log| && log[i].outcome in {Accepted, AcceptanceUnknown} && log[i].frame.board == b &&
      log[i].frame.launch == launch
  }

  predicate LaunchSubmittedAnywhere(log: seq<Offer>) {
    exists i :: 0 <= i < |log| && log[i].outcome in {Accepted, AcceptanceUnknown} && log[i].frame.launch
  }

  predicate Untouched(evidence: Evidence) {
    forall b | b in evidence :: evidence[b] == NotDispatched
  }

  /** Evidence says exactly what may have reached each board. */
  lemma {:induction false} EvidenceMeaning(evidence: Evidence, log: seq<Offer>, b: OasmAddress)
    requires Untouched(evidence) && OnBoards(log, evidence) && b in evidence
    ensures EvidenceAfter(evidence, log)[b] ==
      if SubmittedTo(log, b, true) then LaunchSubmitted
      else if SubmittedTo(log, b, false) then LoaderSubmitted
      else NotDispatched
  {
    if log != [] {
      var init := log[..|log| - 1];
      EvidenceMeaning(evidence, init, b);
      SubmittedStep(log, b, true);
      SubmittedStep(log, b, false);
    }
  }

  lemma SubmittedStep(log: seq<Offer>, b: OasmAddress, launch: bool)
    requires log != []
    ensures SubmittedTo(log, b, launch) <==>
      SubmittedTo(log[..|log| - 1], b, launch) ||
      (Last(log).Submitted() && Last(log).frame.board == b && Last(log).frame.launch == launch)
  {
    var init := log[..|log| - 1];
    if SubmittedTo(init, b, launch) {
      var i :| 0 <= i < |init| && init[i].outcome in {Accepted, AcceptanceUnknown} && init[i].frame.board == b &&
        init[i].frame.launch == launch;
      assert log[i] == init[i];
    }
    if SubmittedTo(log, b, launch) {
      var i :| 0 <= i < |log| && log[i].outcome in {Accepted, AcceptanceUnknown} && log[i].frame.board == b &&
        log[i].frame.launch == launch;
      if i < |log| - 1 {
        assert init[i] == log[i];
      }
    }
  }

  /** NotStarted is reported exactly when no launch-bearing frame was accepted or of unknown acceptance;
      no dispatch alone is ever fully observed. */
  lemma DispatchCertainty(evidence: Evidence, log: seq<Offer>)
    requires Untouched(evidence) && OnBoards(log, evidence)
    ensures DeriveCertainty(EvidenceAfter(evidence, log)) ==
      if LaunchSubmittedAnywhere(log) then Indeterminate else NotStarted
  {
    var after := EvidenceAfter(evidence, log);
    forall b | b in after
      ensures after[b] == LaunchSubmitted <==> SubmittedTo(log, b, true)
      ensures !after[b].IsTerminal()
    {
      EvidenceMeaning(evidence, log, b);
    }
    if LaunchSubmittedAnywhere(log) {
      var i :| 0 <= i < |log| && log[i].outcome in {Accepted, AcceptanceUnknown} && log[i].frame.launch;
      assert SubmittedTo(log, log[i].frame.board, true);
    }
  }

  // ---- the transport

  datatype Envelope = Envelope(etherType: Half, source: nat, destination: nat, marker: nat)

  /** One received packet: its outer header, its route when six bytes are there, and the frame when it decodes. */
  datatype Packet = Packet(envelope: Envelope, route: Option<(Byte, Half)>, reply: Option<Reply>)

  datatype Reply = Reply(flag: Byte, tag: Word, first: Word, second: Word)

  datatype Arrival = Received(packet: Packet) | DeadlinePassed | ReceiveFailed

  /** The transport as an oracle: the outcome of every send and the events every receive meets are fixed
      in advance; what the runtime did with it is recorded. */
  class Transport {
    const envelope: Envelope
    const openFails: bool
    const sends: nat -> SendOutcome
    const arrivals: seq<Arrival>
    var offers: seq<Offer>
    var taken: nat
    var opens: nat
    var closes: nat

    constructor (envelope: Envelope, openFails: bool, sends: nat -> SendOutcome, arrivals: seq<Arrival>)
      ensures offers == [] && taken == 0 && opens == 0 && closes == 0
      ensures this.envelope == envelope && this.openFails == openFails && this.sends == sends
      ensures this.arrivals == arrivals
    {
      this.envelope, this.openFails, this.sends, this.arrivals := envelope, openFails, sends, arrivals;
      offers, taken, opens, closes := [], 0, 0, 0;
    }

    method Open() returns (e: Option<Envelope>)
      modifies `opens
      ensures opens == old(opens) + 1
      ensures e == if openFails then None else Some(envelope)
    {
      opens := opens + 1;
      e := if openFails then None else Some(envelope);
    }

    method Send(f: Frame) returns (outcome: SendOutcome)
      modifies `offers
      ensures outcome == sends(|old(offers)|) && offers == old(offers) + [Offer(f, outcome)]
    {
      outcome := sends(|offers|);
      offers := offers + [Offer(f, outcome)];
    }

    /** Once the events run out, the deadline passes. */
    method Receive() returns (a: Arrival)
      requires taken <= |arrivals|
      modifies `taken
      ensures old(taken) < |arrivals| ==> a == arrivals[old(taken)] && taken == old(taken) + 1
      ensures old(taken) == |arrivals| ==> a == DeadlinePassed && taken == old(taken)
    {
      if taken < |arrivals| {
        a := arrivals[taken];
        taken := taken + 1;
      } else {
        a := DeadlinePassed;
      }
    }

    method Close()
      modifies `closes
      ensures closes == old(closes) + 1
    {
      closes := closes + 1;
    }
  }

  // ---- dispatch

  function Schedule(prepared: seq<seq<Frame>>): (fs: seq<Frame>) {
    if prepared == [] then [] else prepared[0] + Schedule(prepared[1..])
  }

  lemma {:induction false} ScheduleHas(prepared: seq<seq<Frame>>, i: nat, k: nat)
    requires i < |prepared| && k < |prepared[i]|
    ensures prepared[i][k] in Schedule(prepared)
  {
    if i > 0 {
      ScheduleHas(prepared[1..], i - 1, k);
    }
  }

  lemma {:induction false} ScheduleOnly(prepared: seq<seq<Frame>>, f: Frame)
    requires f in Schedule(prepared)
    ensures exists i :: 0 <= i < |prepared| && f in prepared[i]
  {
    if f !in prepared[0] {
      ScheduleOnly(prepared[1..], f);
      var i :| 0 <= i < |prepared[1..]| && f in prepared[1..][i];
      assert f in prepared[i + 1];
    }
  }

  /** The frames of one board, in their order. */
  predicate Numbered(address: OasmAddress, fs: seq<Frame>) {
    forall k :: 0 <= k < |fs| ==> fs[k].board == address && fs[k].index == k
  }

  /** The frames of different boards, and the frames of one board, are all different. */
  lemma {:induction false} NumberedAreDistinct(addresses: seq<OasmAddress>, prepared: seq<seq<Frame>>)
    requires |addresses| == |prepared|
    requires forall i, j :: 0 <= i < j < |addresses| ==> addresses[i] != addresses[j]
    requires forall i :: 0 <= i < |addresses| ==> Numbered(addresses[i], prepared[i])
    ensures DistinctFrames(Schedule(prepared))
  {
    if prepared != [] {
      NumberedAreDistinct(addresses[1..], prepared[1..]);
      forall f | f in Schedule(prepared[1..])
        ensures f.board != addresses[0]
      {
        ScheduleOnly(prepared[1..], f);
        var i :| 0 <= i < |prepared[1..]| && f in prepared[1..][i];
        assert Numbered(addresses[i + 1], prepared[i + 1]);
      }
    }
  }

  lemma ScheduleIsDistinct(boards: seq<Board>, c: Config, prepared: seq<seq<Frame>>)
    requires |boards| == |prepared|
    requires forall i, j :: 0 <= i < j < |boards| ==> boards[i].address != boards[j].address
    requires forall i :: 0 <= i < |boards| ==> PreparedFor(boards[i], c, prepared[i])
    ensures DistinctFrames(Schedule(prepared))
  {
    var addresses := seq(|boards|, i requires 0 <= i < |boards| => boards[i].address);
    forall i | 0 <= i < |addresses|
      ensures Numbered(addresses[i], prepared[i])
    {
      PreparedEndsInLaunch(boards[i], c, prepared[i]);
    }
    NumberedAreDistinct(addresses, prepared);
  }

  lemma EvidenceStep(evidence: Evidence, log: seq<Offer>, o: Offer)
    requires OnBoards(log, evidence) && o.frame.board in evidence
    ensures OnBoards(log + [o], evidence)
    ensures EvidenceAfter(evidence, log + [o]) ==
      if o.Submitted() then Advanced(EvidenceAfter(evidence, log), o.frame) else EvidenceAfter(evidence, log)
  {
    assert (log + [o])[..|log|] == log;
  }

  /** The run so far, with frames `rest` still to be accepted and the first of them refused so often. */
  ghost predicate Underway(all: seq<Frame>, budget: nat, sends: nat -> SendOutcome, log: seq<Offer>,
      rest: seq<Frame>, rejected: nat) {
    && rejected <= budget
    && log + RunOf(rest, budget, rejected, sends, |log|) == RunOf(all, budget, 0, sends, 0)
  }

  lemma SendStep(all: seq<Frame>, budget: nat, sends: nat -> SendOutcome, log: seq<Offer>, rest: seq<Frame>,
      rejected: nat, o: Offer)
    requires rest != [] && Underway(all, budget, sends, log, rest, rejected) && o == Offer(rest[0], sends(|log|))
    ensures o.outcome == Accepted ==> Underway(all, budget, sends, log + [o], rest[1..], 0)
    ensures o.outcome == NotAccepted && rejected < budget ==>
      Underway(all, budget, sends, log + [o], rest, rejected + 1)
    ensures o.outcome == AcceptanceUnknown || (o.outcome == NotAccepted && rejected == budget) ==>
      log + [o] == RunOf(all, budget, 0, sends, 0)
  {
    if o.outcome == Accepted {
      Regroup(log, o, RunOf(rest[1..], budget, 0, sends, |log| + 1));
    } else if o.outcome == NotAccepted && rejected < budget {
      Regroup(log, o, RunOf(rest, budget, rejected + 1, sends, |log| + 1));
    }
  }

  lemma Regroup(log: seq<Offer>, o: Offer, more: seq<Offer>)
    ensures log + ([o] + more) == (log + [o]) + more
  {
  }

  /** Between two frames: the log so far ends in an acceptance, and the evidence is that of the log. */
  ghost predicate Between(all: seq<Frame>, budget: nat, t: Transport, rest: seq<Frame>, initial: Evidence,
      evidence: Evidence)
    reads t`offers
  {
    && Underway(all, budget, t.sends, t.offers, rest, 0)
    && OnBoards(t.offers, initial) && evidence == EvidenceAfter(initial, t.offers)
    && (t.offers == [] || Last(t.offers).outcome == Accepted)
  }

  /** Where the frames of a schedule stopped being accepted. */
  ghost predicate Stopped(all: seq<Frame>, budget: nat, t: Transport, initial: Evidence, evidence: Evidence)
    reads t`offers
  {
    && t.offers == RunOf(all, budget, 0, t.sends, 0) && t.offers != [] && Last(t.offers).outcome != Accepted
    && OnBoards(t.offers, initial) && evidence == EvidenceAfter(initial, t.offers)
  }

  lemma NextOfRest(fs: seq<Frame>, j: nat, later: seq<Frame>)
    requires j < |fs|
    ensures fs[j..] + later == [fs[j]] + (fs[j + 1..] + later)
    ensures (fs[j..] + later)[1..] == fs[j + 1..] + later
  {
  }

  /** All frames of one board. */
  method DispatchBoard(ghost all: seq<Frame>, frames: seq<Frame>, ghost later: seq<Frame>, budget: nat, t: Transport,
                       ghost initial: Evidence, evidence: Evidence)
    returns (evidence': Evidence, accepted: bool)
    requires Between(all, budget, t, frames + later, initial, evidence)
    requires forall j :: 0 <= j < |frames| ==> frames[j].board in initial
    modifies t`offers
    ensures accepted ==> Between(all, budget, t, later, initial, evidence')
    ensures !accepted ==> Stopped(all, budget, t, initial, evidence')
  {
    evidence' := evidence;
    assert frames[0..] + later == frames + later;
    for j := 0 to |frames|
      invariant Between(all, budget, t, frames[j..] + later, initial, evidence')
    {
      NextOfRest(frames, j, later);
      var outcome;
      evidence', outcome := OfferFrame(all, frames[j], frames[j..] + later, budget, t, initial, evidence');
      if outcome != Accepted {
        return evidence', false;
      }
    }
    assert frames[|frames|..] + later == later;
    accepted := true;
  }

  lemma ScheduleFrom(prepared: seq<seq<Frame>>, i: nat)
    requires i < |prepared|
    ensures Schedule(prepared[i..]) == prepared[i] + Schedule(prepared[i + 1..])
  {
    assert prepared[i..][1..] == prepared[i + 1..];
  }

  /** A finished run is complete exactly when its last offer was accepted. */
  lemma RunEnds(all: seq<Frame>, budget: nat, sends: nat -> SendOutcome, log: seq<Offer>)
    requires log == RunOf(all, budget, 0, sends, 0)
    ensures AcceptedFrames(log) == all <==> log == [] || Last(log).outcome == Accepted
  {
    AcceptedPrefix(all, budget, 0, sends, 0);
  }

  lemma NothingRemains(all: seq<Frame>, budget: nat, sends: nat -> SendOutcome, log: seq<Offer>)
    requires Underway(all, budget, sends, log, [], 0)
    ensures log == RunOf(all, budget, 0, sends, 0)
  {
  }

  /** Dispatch in full: the log, the evidence, and whether monitoring may start. */
  method Dispatch(prepared: seq<seq<Frame>>, budget: nat, t: Transport, evidence: Evidence,
                  exceptions: map<OasmAddress, ExceptionReport>)
    returns (evidence': Evidence, failure: Option<Failure>)
    requires t.offers == []
    requires forall i, j :: 0 <= i < |prepared| && 0 <= j < |prepared[i]| ==> prepared[i][j].board in evidence
    modifies t`offers
    ensures t.offers == RunOf(Schedule(prepared), budget, 0, t.sends, 0)
    ensures OnBoards(t.offers, evidence) && evidence' == EvidenceAfter(evidence, t.offers)
    ensures failure.None? <==> AcceptedFrames(t.offers) == Schedule(prepared)
    ensures failure.Some? ==> failure.value == Fail(TransportSendFailed, evidence', exceptions)
  {
    evidence' := evidence;
    ghost var all := Schedule(prepared);
    assert prepared[0..] == prepared;
    for i := 0 to |prepared|
      invariant Between(all, budget, t, Schedule(prepared[i..]), evidence, evidence')
    {
      ScheduleFrom(prepared, i);
      var accepted;
      evidence', accepted := DispatchBoard(all, prepared[i], Schedule(prepared[i + 1..]), budget, t, evidence,
        evidence');
      if !accepted {
        RunEnds(all, budget, t.sends, t.offers);
        return evidence', Some(Fail(TransportSendFailed, evidence', exceptions));
      }
    }
    assert Schedule(prepared[|prepared|..]) == [];
    NothingRemains(all, budget, t.sends, t.offers);
    RunEnds(all, budget, t.sends, t.offers);
    failure := None;
  }

  /** The retry loop for the first of the remaining frames. */
  method OfferFrame(ghost all: seq<Frame>, frame: Frame, ghost rest: seq<Frame>, budget: nat, t: Transport,
                    ghost initial: Evidence, evidence: Evidence)
    returns (evidence': Evidence, outcome: SendOutcome)
    requires rest != [] && rest[0] == frame && frame.board in initial
    requires Between(all, budget, t, rest, initial, evidence)
    modifies t`offers
    ensures outcome == Accepted ==> Between(all, budget, t, rest[1..], initial, evidence')
    ensures outcome != Accepted ==> Stopped(all, budget, t, initial, evidence')
  {
    var rejected := 0;
    evidence' := evidence;
    while true
      invariant Underway(all, budget, t.sends, t.offers, rest, rejected)
      invariant OnBoards(t.offers, initial) && evidence' == EvidenceAfter(initial, t.offers)
      decreases budget - rejected
    {
      ghost var log := t.offers;
      outcome := t.Send(frame);
      SendStep(all, budget, t.sends, log, rest, rejected, Offer(frame, outcome));
      EvidenceStep(initial, log, Offer(frame, outcome));
      if outcome != NotAccepted {
        evidence' := Advanced(evidence', frame);
        return;
      }
      if rejected == budget {
        return;
      }
      rejected := rejected + 1;
    }
  }
}
