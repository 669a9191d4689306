/** One whole execution: prepare, open, dispatch, monitor, close. */
module Execution {
  import opened Common
  import opened Runtime
  import opened Dispatch
  import opened Replies
  import opened Outcomes
  import opened Monitor

  function NothingDispatched(p: Program): (e: Evidence)
    ensures e.Keys == Addresses(p) && Untouched(e)
  {
    map b | b in Addresses(p) :: NotDispatched
  }

  /** The schedule is the prepared frames of all boards, board after board in program order. */
  ghost predicate ScheduleFor(p: Program, c: Config, prepared: seq<seq<Frame>>) {
    |prepared| == |p.boards| && forall i {:trigger PreparedFor(p.boards[i], c,
      prepared[i])} :: 0 <= i < |p.boards| ==> PreparedFor(p.boards[i], c, prepared[i])
  }

  lemma {:induction false} AcceptedWasOffered(log: seq<Offer>, f: Frame)
    requires f in AcceptedFrames(log)
    ensures exists i :: 0 <= i < |log| && log[i] == Offer(f, Accepted)
  {
    if log[0] != Offer(f, Accepted) {
      AcceptedWasOffered(log[1..], f);
      var i :| 0 <= i < |log[1..]| && log[1..][i] == Offer(f, Accepted);
      assert log[i + 1] == Offer(f, Accepted);
    }
  }

  /** Once the whole schedule is accepted, every board's launch is submitted. */
  lemma CompleteDispatchLaunchesAll(p: Program, c: Config, prepared: seq<seq<Frame>>, log: seq<Offer>)
    requires ProgramOk(p) && ScheduleFor(p, c, prepared)
    requires OnBoards(log, NothingDispatched(p)) && AcceptedFrames(log) == Schedule(prepared)
    ensures AllLaunched(EvidenceAfter(NothingDispatched(p), log)) && LaunchSubmittedAnywhere(log)
  {
    var after := EvidenceAfter(NothingDispatched(p), log);
    forall i | 0 <= i < |p.boards|
      ensures SubmittedTo(log, p.boards[i].address, true)
    {
      PreparedEndsInLaunch(p.boards[i], c, prepared[i]);
      LaunchAccepted(prepared, log, p.boards[i].address, i);
    }
    forall b | b in after
      ensures after[b] == LaunchSubmitted
    {
      EvidenceMeaning(NothingDispatched(p), log, b);
    }
    assert SubmittedTo(log, p.boards[0].address, true);
  }

  lemma LaunchAccepted(prepared: seq<seq<Frame>>, log: seq<Offer>, b: OasmAddress, i: nat)
    requires AcceptedFrames(log) == Schedule(prepared) && i < |prepared| && prepared[i] != []
    requires prepared[i][|prepared[i]| - 1].launch && prepared[i][|prepared[i]| - 1].board == b
    ensures SubmittedTo(log, b, true)
  {
    ScheduleHas(prepared, i, |prepared[i]| - 1);
    AcceptedWasOffered(log, prepared[i][|prepared[i]| - 1]);
  }

  lemma FramesOnBoards(p: Program, c: Config, prepared: seq<seq<Frame>>, i: nat, j: nat)
    requires ScheduleFor(p, c, prepared) && i < |prepared| && j < |prepared[i]|
    ensures prepared[i][j].board in Addresses(p)
  {
    PreparedEndsInLaunch(p.boards[i], c, prepared[i]);
    assert p.boards[i].address in Addresses(p);
  }

  /** A run whose transport never opened offered nothing and is certain not to have started. */
  lemma UntouchedIsNotStarted(evidence: Evidence)
    requires Untouched(evidence)
    ensures DeriveCertainty(evidence) == NotStarted
  {
    assert EvidenceAfter(evidence, []) == evidence;
    DispatchCertainty(evidence, []);
  }

  /** Every board reported one successful completion, no failure and no exception address, and its results are
      the data words it sent. */
  predicate EveryBoardCompletedOnce(p: Program, c: Config, e: Envelope, seen: seq<Arrival>, s: Success) {
    && s.evidence.Keys == Addresses(p) && ResultsAre(p, c, e, seen, s.results)
    && forall x | x in c.endpoints :: CompletedOnce(p, e, x.node, seen)
  }

  lemma WatchedSuccess(p: Program, c: Config, e: Envelope, arrivals: seq<Arrival>, taken: nat,
      r: Result<Success, Failure>)
    requires Watched(p, c, e, arrivals, 0, taken, r) && r.Ok? && r.value.evidence.Keys == Addresses(p)
    ensures taken <= |arrivals| && EveryBoardCompletedOnce(p, c, e, arrivals[..taken], r.value)
  {
    assert arrivals[0..] == arrivals;
    forall x | x in c.endpoints
      ensures CompletedOnce(p, e, x.node, arrivals[..taken])
    {
      SuccessMeans(p, c, e, arrivals, taken, r, x);
    }
  }

  /** What a failure may claim: its certainty is what the offers made and the evidence say. */
  predicate ClaimsRightly(p: Program, offers: seq<Offer>, f: Failure) {
    && FailureValid(f) && f.evidence.Keys == Addresses(p)
    && (f.certainty == NotStarted <==> !LaunchSubmittedAnywhere(offers))
    && (f.certainty == FullyObserved <==> AllTerminal(f.evidence))
    && (f.certainty == FullyObserved <==> f.code == DeviceException)
  }

  lemma AllFramesOnBoards(p: Program, c: Config, frames: seq<seq<Frame>>, evidence: Evidence)
    requires ScheduleFor(p, c, frames) && evidence.Keys == Addresses(p)
    ensures forall i, j :: 0 <= i < |frames| && 0 <= j < |frames[i]| ==> frames[i][j].board in evidence
  {
    forall i, j | 0 <= i < |frames| && 0 <= j < |frames[i]|
      ensures frames[i][j].board in evidence
    {
      FramesOnBoards(p, c, frames, i, j);
    }
  }

  /** A program whose frames were all accepted is watched; any other was not sent. */
  ghost predicate Ran(p: Program, c: Config, frames: seq<seq<Frame>>, e: Envelope, arrivals: seq<Arrival>,
      offers: seq<Offer>, taken: nat, r: Result<Success, Failure>) {
    if AcceptedFrames(offers) == Schedule(frames) then Watched(p, c, e, arrivals, 0, taken, r)
    else r.Err? && r.error.code == TransportSendFailed
  }

  /** Dispatch all frames: every launch was submitted, or the failure claims what the offers say. */
  method DispatchPrepared(p: Program, c: Config, frames: seq<seq<Frame>>, t: Transport, budget: nat)
    returns (evidence: Evidence, failure: Option<Failure>)
    requires ProgramOk(p) && HandoffOk(p, c) && ScheduleFor(p, c, frames)
    requires t.offers == [] && t.taken == 0
    modifies t`offers
    ensures t.offers == RunOf(Schedule(frames), budget, 0, t.sends, 0)
    ensures failure.Some? ==> ClaimsRightly(p, t.offers, failure.value) && failure.value.code == TransportSendFailed
    ensures failure.None? <==> AcceptedFrames(t.offers) == Schedule(frames)
    ensures failure.None? ==>
      evidence.Keys == Addresses(p) != {} && AllLaunched(evidence) && LaunchSubmittedAnywhere(t.offers)
  {
    evidence := NothingDispatched(p);
    ghost var untouched := evidence;
    assert p.boards[0].address in evidence.Keys;
    AllFramesOnBoards(p, c, frames, evidence);
    evidence, failure := Dispatch.Dispatch(frames, budget, t, evidence, map[]);
    DispatchCertainty(untouched, t.offers);
    if failure.Some? {
      NoneTerminal(untouched, t.offers);
    } else {
      CompleteDispatchLaunchesAll(p, c, frames, t.offers);
    }
  }

  /** Dispatch and monitor over an open transport. */
  method RunPrepared(p: Program, c: Config, frames: seq<seq<Frame>>, t: Transport, budget: nat)
    returns (r: Result<Success, Failure>)
    requires ProgramOk(p) && ConfigOk(c) && HandoffOk(p, c) && ScheduleFor(p, c, frames)
    requires t.offers == [] && t.taken == 0
    modifies t`offers, t`taken
    ensures t.offers == RunOf(Schedule(frames), budget, 0, t.sends, 0)
    ensures t.taken <= |t.arrivals| && (r.Ok? ==> SuccessValid(r.value) && r.value.evidence.Keys == Addresses(p))
    ensures r.Err? ==> ClaimsRightly(p, t.offers, r.error)
    ensures Ran(p, c, frames, t.envelope, t.arrivals, t.offers, t.taken, r)
  {
    var evidence, failure := DispatchPrepared(p, c, frames, t, budget);
    if failure.Some? {
      return Err(failure.value);
    }
    r := Observe(p, c, t, evidence);
  }

  method Observe(p: Program, c: Config, t: Transport, evidence: Evidence) returns (r: Result<Success, Failure>)
    requires ConfigOk(c) && HandoffOk(p, c) && evidence.Keys == Addresses(p) != {} && AllLaunched(evidence)
    requires t.taken == 0
    requires LaunchSubmittedAnywhere(t.offers)
    modifies t`taken
    ensures t.taken <= |t.arrivals| && (r.Ok? ==> SuccessValid(r.value) && r.value.evidence.Keys == Addresses(p))
    ensures r.Err? ==> ClaimsRightly(p, t.offers, r.error)
    ensures Watched(p, c, t.envelope, t.arrivals, 0, t.taken, r)
  {
    var observation := new Observation(evidence);
    EndpointsAreBoards(p, c, evidence);
    ghost var seen;
    r, seen := observation.Watch(p, c, t);
    if r.Err? {
      WatchClaims(p, c, t, observation, seen, r.error);
    }
  }

  lemma EndpointsAreBoards(p: Program, c: Config, evidence: Evidence)
    requires HandoffOk(p, c) && evidence.Keys == Addresses(p)
    ensures forall e | e in c.endpoints :: e.address in evidence
  {
    forall e | e in c.endpoints
      ensures e.address in evidence
    {
      assert e.address in Configured(c);
    }
  }

  lemma WatchClaims(p: Program, c: Config, t: Transport, o: Observation, seen: seq<Arrival>, f: Failure)
    requires o.Tracks(c.endpoints, RepliesIn(p, t.envelope, seen)) && o.evidence.Keys == Addresses(p) != {}
    requires FailureValid(f) && f == Fail(f.code, o.evidence, o.exceptions) && LaunchSubmittedAnywhere(t.offers)
    requires f.code == DeviceException <==> AllTerminal(o.evidence)
    ensures ClaimsRightly(p, t.offers, f)
  {
    o.LaunchedOrTerminal(c.endpoints, RepliesIn(p, t.envelope, seen));
  }

  /** The offers are a run of the dispatcher over the program's prepared frames. */
  ghost predicate OffersOf(p: Program, c: Config, budget: nat, sends: nat -> SendOutcome, offers: seq<Offer>) {
    exists prepared :: ScheduleFor(p, c, prepared) && offers == RunOf(Schedule(prepared), budget, 0, sends, 0)
  }

  /** A failure before anything is offered. */
  lemma NothingOffered(p: Program, code: FailureCode)
    requires ProgramOk(p) && code != DeviceException
    ensures ClaimsRightly(p, [], Fail(code, NothingDispatched(p), map[]))
  {
    UntouchedIsNotStarted(NothingDispatched(p));
    assert p.boards[0].address in NothingDispatched(p);
  }

  method OpenAndRun(p: Program, c: Config, frames: seq<seq<Frame>>, t: Transport, budget: nat)
    returns (r: Result<Success, Failure>)
    requires ProgramOk(p) && ConfigOk(c) && HandoffOk(p, c) && ScheduleFor(p, c, frames)
    requires t.offers == [] && t.taken == 0 && t.opens == 0 && t.closes == 0
    modifies t
    ensures t.opens == 1 && t.closes == if t.openFails then 0 else 1
    ensures t.offers == if t.openFails then [] else RunOf(Schedule(frames), budget, 0, t.sends, 0)
    ensures t.taken <= |t.arrivals| && (r.Ok? ==> SuccessValid(r.value) && r.value.evidence.Keys == Addresses(p))
    ensures r.Err? ==> ClaimsRightly(p, t.offers, r.error)
    ensures if t.openFails then r.Err? && r.error.code == TransportOpenFailed
      else Ran(p, c, frames, t.envelope, t.arrivals, t.offers, t.taken, r)
  {
    var envelope := t.Open();
    if envelope.None? {
      r := Err(Fail(TransportOpenFailed, NothingDispatched(p), map[]));
      NothingOffered(p, TransportOpenFailed);
    } else {
      r := RunPrepared(p, c, frames, t, budget);
      t.Close();
    }
  }

  ghost predicate RanWith(p: Program, c: Config, frames: seq<seq<Frame>>, t: Transport, budget: nat,
      r: Result<Success, Failure>)
    reads t`offers, t`taken
  {
    && ScheduleFor(p, c, frames) && t.offers == RunOf(Schedule(frames), budget, 0, t.sends, 0)
    && Ran(p, c, frames, t.envelope, t.arrivals, t.offers, t.taken, r)
  }

  /** How an execution ends: unprepared and never opened, not opened, not sent, or watched. */
  ghost predicate EndsAs(p: Program, c: Config, t: Transport, budget: nat, clockOverflows: bool,
      r: Result<Success, Failure>)
    reads t
  {
    if !Preparable(p, c) || clockOverflows then t.opens == 0 && r.Err? && r.error.code == TopologyInvalid
    else if t.openFails then t.opens == 1 && r.Err? && r.error.code == TransportOpenFailed
    else t.opens == 1 && exists prepared :: RanWith(p, c, prepared, t, budget, r)
  }

  lemma OpenedEndsAs(p: Program, c: Config, t: Transport, budget: nat, frames: seq<seq<Frame>>,
      r: Result<Success, Failure>)
    requires Preparable(p, c) && ScheduleFor(p, c, frames) && t.opens == 1
    requires t.offers == if t.openFails then [] else RunOf(Schedule(frames), budget, 0, t.sends, 0)
    requires if t.openFails then r.Err? && r.error.code == TransportOpenFailed
      else Ran(p, c, frames, t.envelope, t.arrivals, t.offers, t.taken, r)
    ensures EndsAs(p, c, t, budget, false, r) && (t.offers == [] || OffersOf(p, c, budget, t.sends, t.offers))
  {
    if !t.openFails {
      assert RanWith(p, c, frames, t, budget, r);
    }
  }

  /** One whole execution. The transport is opened at most once and closed exactly when it did open. */
  method ExecuteWithTransport(p: Program, c: Config, t: Transport, budget: nat, clockOverflows: bool)
    returns (r: Result<Success, Failure>)
    requires ProgramOk(p) && ConfigOk(c)
    requires t.offers == [] && t.taken == 0 && t.opens == 0 && t.closes == 0
    modifies t
    ensures t.opens <= 1 && t.closes == if t.opens == 1 && !t.openFails then 1 else 0
    ensures t.offers == [] || OffersOf(p, c, budget, t.sends, t.offers)
    ensures t.taken <= |t.arrivals| && (r.Ok? ==> SuccessValid(r.value) && r.value.evidence.Keys == Addresses(p))
    ensures r.Err? ==> ClaimsRightly(p, t.offers, r.error)
    ensures EndsAs(p, c, t, budget, clockOverflows, r)
    ensures r.Ok? ==> EveryBoardCompletedOnce(p, c, t.envelope, t.arrivals[..t.taken], r.value)
  {
    NothingOffered(p, TopologyInvalid);
    var prepared := Prepare(p, c, NothingDispatched(p), map[]);
    if prepared.Err? {
      r := Err(prepared.error);
    } else if clockOverflows {
      r := Err(Fail(TopologyInvalid, NothingDispatched(p), map[]));
    } else {
      r := OpenAndRun(p, c, prepared.value, t, budget);
      OpenedEndsAs(p, c, t, budget, prepared.value, r);
      if r.Ok? {
        WatchedSuccess(p, c, t.envelope, t.arrivals, t.taken, r);
      }
    }
  }

  lemma NoneTerminal(evidence: Evidence, log: seq<Offer>)
    requires Untouched(evidence) && OnBoards(log, evidence) && evidence.Keys != {}
    ensures !AllTerminal(EvidenceAfter(evidence, log))
  {
    var b :| b in evidence.Keys;
    EvidenceMeaning(evidence, log, b);
    assert b in EvidenceAfter(evidence, log);
  }

  /** The safety of a log of offers against a schedule of different frames. */
  ghost predicate SafeLog(schedule: seq<Frame>, budget: nat, log: seq<Offer>) {
    && DistinctFrames(schedule) && PrefixAccepted(schedule, log)
    && (forall f :: OfferCount(log, f) <= budget + 1)
    && (forall i :: 0 <= i < |log| - 1 ==> log[i].outcome != AcceptanceUnknown)
    && (forall i, j :: 0 <= i < j < |log| && log[i].outcome == Accepted ==> log[j].frame != log[i].frame)
  }

  /** Over every transport: the accepted frames are a prefix of the prepared ones in order, no frame is offered
      more than once past the retry budget, none after its acceptance, and nothing after an unknown one. */
  lemma EveryExecutionIsSafe(p: Program, c: Config, budget: nat, sends: nat -> SendOutcome, offers: seq<Offer>)
    requires ProgramOk(p) && OffersOf(p, c, budget, sends, offers)
    ensures exists prepared :: ScheduleFor(p, c, prepared) && SafeLog(Schedule(prepared), budget, offers)
  {
    var prepared :| ScheduleFor(p, c, prepared) && offers == RunOf(Schedule(prepared), budget, 0, sends, 0);
    ScheduleIsDistinct(p.boards, c, prepared);
    RunIsSafe(Schedule(prepared), budget, sends, offers);
  }

  lemma RunIsSafe(schedule: seq<Frame>, budget: nat, sends: nat -> SendOutcome, log: seq<Offer>)
    requires DistinctFrames(schedule) && log == RunOf(schedule, budget, 0, sends, 0)
    ensures SafeLog(schedule, budget, log)
  {
    AcceptedPrefix(schedule, budget, 0, sends, 0);
    forall f
      ensures OfferCount(log, f) <= budget + 1
    {
      OfferedWithinBudget(schedule, budget, 0, sends, 0, f);
    }
    forall i, j | 0 <= i < j < |log|
      ensures log[i].outcome == Accepted ==> log[j].frame != log[i].frame
    {
      SubmittedNotOfferedAgain(schedule, budget, 0, sends, 0, i, j);
    }
    forall i | 0 <= i < |log| - 1
      ensures log[i].outcome != AcceptanceUnknown
    {
      SubmittedNotOfferedAgain(schedule, budget, 0, sends, 0, i, |log| - 1);
    }
  }
}
