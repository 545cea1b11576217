/**
 The page screencast engine: one recording at a time, cut at every `await`. A recording collects
 frames while it starts and while it is active, defers stop requests that arrive while it starts, and
 completes once. Recordings are kept in order of creation; `current` is the engine's field.

 The environment chooses every event and how every CDP call and consumer callback ends.
 */
module Screencast {
  import opened Prelude

  datatype Phase = Starting | Active | Stopping | Complete

  datatype Reason = User | MaxDuration | MaxBytes | TargetClosed | Abort | Failure

  /** Where the start call is suspended. */
  datatype StartPoint = AtAcquire | AtEnsureDomain | AtStartScreencast | StartDone

  /** Where finishState is suspended. */
  datatype FinishPoint = NotFinishing | AtStopScreencast | AtRelease | Finished

  datatype Summary = Summary(frameCount: nat, sourceBytes: nat, reason: Reason)

  /** What the consumer sees: onFrame and onComplete calls, in order. */
  datatype Output = Frame(number: nat, bytes: nat) | Completed(summary: Summary)

  datatype Recording = Recording(
    phase: Phase,
    startPoint: StartPoint,
    finishPoint: FinishPoint,
    requestedReason: Option<Reason>,
    aborted: bool,               // the signal of its start has fired
    transportClosed: bool,
    acquired: bool,
    screencastStarted: bool,
    durationTimer: bool,
    seedTimer: bool,
    seedPending: bool,           // a seed screenshot is on its way
    acks: seq<Option<nat>>,      // frames waiting for their ack; None is a frame without data
    frameCount: nat,
    sourceBytes: nat,
    output: seq<Output>,
    grants: nat,                 // acquire calls that succeeded
    releases: nat,               // release calls made
    activated: bool)

  datatype Engine = Engine(
    maxSourceBytes: nat,
    recordings: seq<Recording>,
    current: Option<nat>,
    disposed: bool,
    transportClosed: bool)

  datatype SeedOutcome = ScreenshotFailed | Screenshot(data: Option<nat>)

  /** What can happen to one recording. */
  datatype Happening =
    | AcquireSettles(ok: bool)
    | EnsureDomainSettles(ok: bool)
    | StartScreencastSettles(ok: bool, captureSeedFrame: bool)
    | FrameArrives(data: Option<nat>, needsAck: bool, callbackThrows: bool)
    | AckSettles(i: nat, ok: bool, callbackThrows: bool)
    | SeedTimerFires
    | SeedSettles(outcome: SeedOutcome, callbackThrows: bool)
    | DurationTimerFires
    | SignalAborts
    | TransportCloses
    | StopScreencastSettles
    | ReleaseSettles

  datatype Event =
    | Start(signalAborted: bool)
    | Stop(reason: Reason)
    | Dispose
    | At(k: nat, h: Happening)

  // ----- one recording -----

  const FRESH_RECORDING := Recording(Starting, AtAcquire, NotFinishing, None, false, false, false, false, false, false,
                                    false, [], 0, 0, [], 0, 0, false)

  predicate Unfinished(r: Recording) { r.phase != Complete }

  /** acceptsFrames, for the current recording; it is also when the CDP listeners are installed. */
  predicate Accepts(r: Recording) { r.phase == Starting || r.phase == Active }

  function Finish(r: Recording): Recording {
    r.(phase := Complete, finishPoint := Finished,
       output := r.output + [Completed(Summary(r.frameCount, r.sourceBytes, r.requestedReason.GetOr(Failure)))])
  }

  /** finishState after the screencast has been stopped. */
  function FinishRelease(r: Recording): Recording {
    if r.acquired && !r.transportClosed then
      r.(acquired := false, releases := r.releases + 1, finishPoint := AtRelease)
    else Finish(r)
  }

  /** finishState up to its first suspension; EnterStopping has put the finish point at its first call. */
  function FinishState(r: Recording): Recording {
    if r.screencastStarted && !r.transportClosed then r else FinishRelease(r)
  }

  /** clearStateResources also removes the CDP listeners, which is what `Accepts` says of the phase. */
  function EnterStopping(r: Recording): Recording {
    r.(phase := Stopping, finishPoint := AtStopScreencast, durationTimer := false, seedTimer := false)
  }

  /** Stopping for good, up to the first suspension of finishState. */
  function Stopped(r: Recording, reason: Reason): Recording {
    FinishState(EnterStopping(r.(requestedReason := Some(reason))))
  }

  /** requestStop, with what finishState does before its first suspension. */
  function RequestStop(r: Recording, reason: Reason, finishStarting: bool): Recording {
    if r.phase == Complete || r.finishPoint != NotFinishing then r
    else
      var first := r.requestedReason.GetOr(reason);
      if r.phase == Starting && !finishStarting then r.(requestedReason := Some(first))
      else Stopped(r, first)
  }

  /** The catch block of start. */
  function FailStart(r: Recording): Recording {
    var reason :=
      if r.transportClosed then TargetClosed else if r.aborted then Abort else r.requestedReason.GetOr(Failure);
    RequestStop(r.(startPoint := StartDone), reason, true)
  }

  function EmitFrame(r: Recording, bytes: nat): Recording {
    r.(output := r.output + [Frame(r.frameCount, bytes)],
       frameCount := r.frameCount + 1,
       sourceBytes := r.sourceBytes + bytes)
  }

  function EmitAndStop(r: Recording, bytes: nat, stop: Option<Reason>): Recording {
    if stop.None? then EmitFrame(r, bytes) else RequestStop(EmitFrame(r, bytes), stop.value, false)
  }

  predicate Reaches(r: Recording, bytes: nat, maxSourceBytes: nat) { r.sourceBytes + bytes >= maxSourceBytes }

  /** handleFrame once the frame is acknowledged. */
  function Deliver(r: Recording, data: Option<nat>, callbackThrows: bool, maxSourceBytes: nat): Recording {
    if !Accepts(r) || data.None? then r
    else
      EmitAndStop(r, data.value,
                  if callbackThrows then Some(Failure)
                  else if Reaches(r, data.value, maxSourceBytes) then Some(MaxBytes) else None)
  }

  /** captureSeedFrameIfNeeded once the screenshot is there; a throwing callback is swallowed. */
  function DeliverSeed(r: Recording, outcome: SeedOutcome, callbackThrows: bool, maxSourceBytes: nat): Recording {
    if outcome.ScreenshotFailed? || !Accepts(r) || r.frameCount > 0 || outcome.data.None? then r
    else
      EmitAndStop(r, outcome.data.value,
                  if !callbackThrows && Reaches(r, outcome.data.value, maxSourceBytes) then Some(MaxBytes) else None)
  }

  // ----- the engine -----

  /** Stores a recording; completing it also clears the engine's current field. */
  function Put(s: Engine, k: nat, r: Recording): Engine
    requires k < |s.recordings|
  {
    s.(recordings := s.recordings[k := r],
       current := if r.phase == Complete && s.current == Some(k) then None else s.current)
  }

  /** assertStartupCanContinue */
  predicate CanContinue(s: Engine, k: nat)
    requires k < |s.recordings|
  {
    var r := s.recordings[k];
    && !r.transportClosed && !s.transportClosed && !r.aborted && !s.disposed
    && r.requestedReason.None? && s.current == Some(k) && r.phase == Starting
  }

  predicate CanHappen(r: Recording, h: Happening) {
    match h
    case AcquireSettles(_) => r.startPoint == AtAcquire
    case EnsureDomainSettles(_) => r.startPoint == AtEnsureDomain
    case StartScreencastSettles(_, _) => r.startPoint == AtStartScreencast
    case FrameArrives(_, _, _) => Accepts(r)
    case AckSettles(i, _, _) => i < |r.acks|
    case SeedTimerFires => r.seedTimer
    case SeedSettles(_, _) => r.seedPending
    case DurationTimerFires => r.durationTimer
    case SignalAborts => !r.aborted
    case TransportCloses => Accepts(r)
    case StopScreencastSettles => r.finishPoint == AtStopScreencast
    case ReleaseSettles => r.finishPoint == AtRelease
  }

  predicate Enabled(s: Engine, e: Event) {
    e.At? ==> e.k < |s.recordings| && CanHappen(s.recordings[e.k], e.h)
  }

  function StartCalled(s: Engine, signalAborted: bool): Engine {
    if s.disposed || s.transportClosed || s.current.Some? then s
    else
      var k := |s.recordings|;
      var r := FRESH_RECORDING.(aborted := signalAborted);
      var started := s.(recordings := s.recordings + [r], current := Some(k));
      if CanContinue(started, k) then started else Put(started, k, FailStart(r))
  }

  function AfterGrant(r: Recording, goesOn: bool): Recording {
    var acquired := r.(acquired := true, grants := r.grants + 1);
    if goesOn then acquired.(startPoint := AtEnsureDomain) else FailStart(acquired)
  }

  /** What a happening makes of its recording. */
  function NextRecording(s: Engine, k: nat, h: Happening): Recording
    requires k < |s.recordings| && CanHappen(s.recordings[k], h)
  {
    var r := s.recordings[k];
    match h
    case AcquireSettles(ok) =>
      if ok then AfterGrant(r, CanContinue(s, k)) else FailStart(r)
    case EnsureDomainSettles(ok) =>
      if ok && CanContinue(s, k) then r.(startPoint := AtStartScreencast) else FailStart(r)
    case StartScreencastSettles(ok, captureSeedFrame) =>
      var started := if ok then r.(screencastStarted := true) else r;
      if ok && CanContinue(s, k) then Activate(started, captureSeedFrame) else FailStart(started)
    case FrameArrives(data, needsAck, callbackThrows) =>
      if needsAck then r.(acks := r.acks + [data]) else Deliver(r, data, callbackThrows, s.maxSourceBytes)
    case AckSettles(i, ok, callbackThrows) =>
      var taken := r.(acks := r.acks[..i] + r.acks[i + 1..]);
      if ok then Deliver(taken, r.acks[i], callbackThrows, s.maxSourceBytes) else RequestStop(taken, Failure, false)
    case SeedTimerFires =>
      r.(seedTimer := false, seedPending := r.seedPending || (r.phase == Active && r.frameCount == 0))
    case SeedSettles(outcome, callbackThrows) =>
      DeliverSeed(r.(seedPending := false), outcome, callbackThrows, s.maxSourceBytes)
    case DurationTimerFires => RequestStop(r.(durationTimer := false), MaxDuration, false)
    case SignalAborts =>
      var aborted := r.(aborted := true);
      if !Accepts(r) then aborted  // the abort listener is gone
      else if r.phase == Starting then aborted.(requestedReason := Some(Abort))
      else RequestStop(aborted.(requestedReason := Some(Abort)), Abort, false)
    case TransportCloses =>
      var closed := r.(transportClosed := true);
      if r.phase == Starting then closed.(requestedReason := Some(TargetClosed))
      else RequestStop(closed, TargetClosed, false)
    case StopScreencastSettles => FinishRelease(r.(screencastStarted := false))
    case ReleaseSettles => Finish(r)
  }

  function Activate(r: Recording, captureSeedFrame: bool): Recording {
    r.(startPoint := StartDone, phase := Active, activated := true, durationTimer := true,
      seedTimer := captureSeedFrame)
  }

  function StopCurrent(s: Engine, reason: Reason): Engine
    requires s.current.Some? ==> s.current.value < |s.recordings|
  {
    if s.current.None? then s
    else Put(s, s.current.value, RequestStop(s.recordings[s.current.value], reason, false))
  }

  function Next(s: Engine, e: Event): Engine
    requires Enabled(s, e)
    requires s.current.Some? ==> s.current.value < |s.recordings|
  {
    match e
    case Start(signalAborted) => StartCalled(s, signalAborted)
    case Stop(reason) => StopCurrent(s, reason)
    case Dispose => if s.disposed then s else StopCurrent(s.(disposed := true), Abort)
    case At(k, h) => Put(s.(transportClosed := s.transportClosed || h.TransportCloses?), k, NextRecording(s, k, h))
  }

  // ----- the invariant -----

  /** n frames numbered 0, 1, ..., n - 1, whose sizes sum to bytes. */
  ghost predicate Numbered(frames: seq<Output>, n: nat, bytes: int)
    decreases n
  {
    |frames| == n &&
    if n == 0 then bytes == 0
    else
      var last := frames[n - 1];
      last.Frame? && last.number == n - 1 && Numbered(frames[..n - 1], n - 1, bytes - last.bytes)
  }

  /** The onFrame calls of a recording. */
  ghost function Frames(r: Recording): seq<Output> { FramesOf(r.phase, r.output) }

  ghost function FramesOf(phase: Phase, output: seq<Output>): seq<Output> {
    if phase == Complete && output != [] then output[..|output| - 1] else output
  }

  ghost predicate RecordingInv(r: Recording) {
    && (r.phase == Starting <==> r.startPoint != StartDone)
    && (r.phase == Complete <==> r.finishPoint == Finished)
    && (r.phase == Stopping <==> r.finishPoint in {AtStopScreencast, AtRelease})
    && (r.phase == Stopping ==> r.requestedReason.Some?)
    && (r.phase == Active ==> r.activated)
    && (r.phase == Starting ==> !r.activated && !r.seedPending && r.releases == 0)
    && (r.startPoint == AtAcquire ==> r.grants == 0)
    && (r.durationTimer || r.seedTimer ==> r.phase == Active)
    && r.grants <= 1 && r.grants == r.releases + (if r.acquired then 1 else 0)
    && (r.finishPoint == AtRelease ==> !r.acquired)
    && (r.phase == Complete && r.acquired ==> r.transportClosed)
    && (r.finishPoint in {AtRelease, Finished} && r.screencastStarted ==> r.transportClosed)
    && Numbered(FramesOf(r.phase, r.output), r.frameCount, r.sourceBytes)
    && (r.phase == Complete ==>
          r.output != [] && r.requestedReason.Some? &&
          r.output[|r.output| - 1] == Completed(Summary(r.frameCount, r.sourceBytes, r.requestedReason.value)))
  }

  ghost predicate Inv(s: Engine) {
    && s.maxSourceBytes > 0
    && (s.current.Some? ==> s.current.value < |s.recordings|)
    && (forall k :: 0 <= k < |s.recordings| ==>
          RecordingInv(s.recordings[k]) && (Unfinished(s.recordings[k]) <==> s.current == Some(k)))
  }

  lemma FinishKeepsInv(r: Recording)
    requires RecordingInv(r) && r.phase == Stopping && (r.acquired || r.screencastStarted ==> r.transportClosed)
    ensures RecordingInv(Finish(r))
  {
    assert Frames(Finish(r)) == Frames(r);
  }

  lemma FinishReleaseKeepsInv(r: Recording)
    requires RecordingInv(r) && r.phase == Stopping && (r.screencastStarted ==> r.transportClosed)
    ensures RecordingInv(FinishRelease(r))
  {
    if !(r.acquired && !r.transportClosed) { FinishKeepsInv(r); }
  }

  lemma EnterStoppingKeepsInv(r: Recording, reason: Reason)
    requires RecordingInv(r) && Accepts(r)
    ensures RecordingInv(EnterStopping(r.(startPoint := StartDone, requestedReason := Some(reason))))
  {
    assert Frames(EnterStopping(r)) == Frames(r);
  }

  lemma StoppedKeepsInv(r: Recording, reason: Reason)
    requires RecordingInv(r) && Accepts(r)
    ensures RecordingInv(Stopped(r.(startPoint := StartDone), reason))
    ensures Stopped(r.(startPoint := StartDone), reason).phase in {Stopping, Complete}
  {
    EnterStoppingKeepsInv(r, reason);
    var stopping := EnterStopping(r.(startPoint := StartDone, requestedReason := Some(reason)));
    if stopping.screencastStarted ==> stopping.transportClosed { FinishReleaseKeepsInv(stopping); }
  }

  lemma RequestStopKeepsInv(r: Recording, reason: Reason)
    requires RecordingInv(r)
    ensures RecordingInv(RequestStop(r, reason, false))
  {
    if r.phase == Active {
      StoppedKeepsInv(r, r.requestedReason.GetOr(reason));
      assert r.(startPoint := StartDone) == r;
    }
  }

  function FailureReason(r: Recording): Reason {
    r.requestedReason.GetOr(if r.transportClosed then TargetClosed else if r.aborted then Abort else Failure)
  }

  lemma FailStartStops(r: Recording)
    requires r.phase == Starting && r.finishPoint == NotFinishing
    ensures FailStart(r) == Stopped(r.(startPoint := StartDone), FailureReason(r))
  {
  }

  lemma FailStartKeepsInv(r: Recording)
    requires RecordingInv(r) && r.phase == Starting
    ensures RecordingInv(FailStart(r)) && FailStart(r).phase in {Stopping, Complete}
  {
    FailStartStops(r);
    StoppedKeepsInv(r, FailureReason(r));
  }

  lemma EmitFrameKeepsInv(r: Recording, bytes: nat)
    requires RecordingInv(r) && Accepts(r)
    ensures RecordingInv(EmitFrame(r, bytes))
  {
    assert EmitFrame(r, bytes).output[..r.frameCount] == r.output;
  }

  lemma EmitAndStopKeepsInv(r: Recording, bytes: nat, stop: Option<Reason>)
    requires RecordingInv(r) && Accepts(r)
    ensures RecordingInv(EmitAndStop(r, bytes, stop))
  {
    EmitFrameKeepsInv(r, bytes);
    if stop.Some? { RequestStopKeepsInv(EmitFrame(r, bytes), stop.value); }
  }

  lemma DeliverKeepsInv(r: Recording, data: Option<nat>, callbackThrows: bool, max: nat)
    requires RecordingInv(r)
    ensures RecordingInv(Deliver(r, data, callbackThrows, max))
  {
    if Accepts(r) && data.Some? {
      EmitAndStopKeepsInv(r, data.value, if callbackThrows then Some(Failure)
                                         else if Reaches(r, data.value, max) then Some(MaxBytes) else None);
    }
  }

  lemma DeliverSeedKeepsInv(r: Recording, outcome: SeedOutcome, callbackThrows: bool, max: nat)
    requires RecordingInv(r)
    ensures RecordingInv(DeliverSeed(r, outcome, callbackThrows, max))
  {
    if Accepts(r) && outcome.Screenshot? && outcome.data.Some? {
      EmitAndStopKeepsInv(r, outcome.data.value,
                          if !callbackThrows && Reaches(r, outcome.data.value, max) then Some(MaxBytes) else None);
    }
  }

  /** Only a recording that was unfinished may be put back unfinished. */
  lemma PutKeepsInv(s: Engine, k: nat, r: Recording)
    requires Inv(s) && k < |s.recordings| && RecordingInv(r)
    requires Unfinished(r) ==> Unfinished(s.recordings[k])
    ensures Inv(Put(s, k, r))
  {
  }

  /** The grant moves the start on; whether it may go on is decided in the same step. */
  lemma GrantKeepsInv(r: Recording, goesOn: bool)
    requires RecordingInv(r) && r.startPoint == AtAcquire
    ensures RecordingInv(AfterGrant(r, goesOn))
  {
    WantedGrantKeepsInv(r);
    if !goesOn {
      FailStartKeepsInv(AfterGrant(r, true));
      RefusedGrantFails(r);
    }
  }

  lemma WantedGrantKeepsInv(r: Recording)
    requires RecordingInv(r) && r.startPoint == AtAcquire
    ensures RecordingInv(AfterGrant(r, true))
  {
  }

  lemma RefusedGrantFails(r: Recording)
    ensures AfterGrant(r, false) == FailStart(AfterGrant(r, true))
  {
  }

  lemma StartScreencastKeepsInv(s: Engine, k: nat, ok: bool, seed: bool)
    requires k < |s.recordings| && CanHappen(s.recordings[k], StartScreencastSettles(ok, seed))
    requires RecordingInv(s.recordings[k])
    ensures RecordingInv(NextRecording(s, k, StartScreencastSettles(ok, seed)))
  {
    var r := s.recordings[k];
    var started := if ok then r.(screencastStarted := true) else r;
    assert RecordingInv(started);
    FailStartKeepsInv(started);
    assert Frames(Activate(started, seed)) == Frames(r);
  }

  lemma AckKeepsInv(s: Engine, k: nat, i: nat, ok: bool, throws: bool)
    requires k < |s.recordings| && CanHappen(s.recordings[k], AckSettles(i, ok, throws))
    requires RecordingInv(s.recordings[k])
    ensures RecordingInv(NextRecording(s, k, AckSettles(i, ok, throws)))
  {
    var r := s.recordings[k];
    var taken := r.(acks := r.acks[..i] + r.acks[i + 1..]);
    assert RecordingInv(taken);
    DeliverKeepsInv(taken, r.acks[i], throws, s.maxSourceBytes);
    RequestStopKeepsInv(taken, Failure);
  }

  lemma FrameKeepsInv(s: Engine, k: nat, h: Happening)
    requires k < |s.recordings| && CanHappen(s.recordings[k], h) && RecordingInv(s.recordings[k])
    requires h.FrameArrives? || h.SeedTimerFires? || h.SeedSettles?
    ensures RecordingInv(NextRecording(s, k, h))
  {
    var r := s.recordings[k];
    match h
    case FrameArrives(data, _, throws) => DeliverKeepsInv(r, data, throws, s.maxSourceBytes);
    case SeedTimerFires =>
    case SeedSettles(outcome, throws) =>
      assert RecordingInv(r.(seedPending := false));
      DeliverSeedKeepsInv(r.(seedPending := false), outcome, throws, s.maxSourceBytes);
  }

  lemma StopStepKeepsInv(s: Engine, k: nat, h: Happening)
    requires k < |s.recordings| && CanHappen(s.recordings[k], h) && RecordingInv(s.recordings[k])
    requires h.DurationTimerFires? || h.SignalAborts? || h.TransportCloses?
    ensures RecordingInv(NextRecording(s, k, h))
  {
    var r := s.recordings[k];
    match h
    case DurationTimerFires => RequestStopKeepsInv(r.(durationTimer := false), MaxDuration);
    case SignalAborts =>
      if Accepts(r) { RequestStopKeepsInv(r.(aborted := true, requestedReason := Some(Abort)), Abort); }
    case TransportCloses => RequestStopKeepsInv(r.(transportClosed := true), TargetClosed);
  }

  lemma NextRecordingKeepsInv(s: Engine, k: nat, h: Happening)
    requires k < |s.recordings| && CanHappen(s.recordings[k], h) && RecordingInv(s.recordings[k])
    ensures RecordingInv(NextRecording(s, k, h))
  {
    match h
    case AcquireSettles(ok) =>
      if ok {
        GrantKeepsInv(s.recordings[k], CanContinue(s, k));
      } else {
        FailStartKeepsInv(s.recordings[k]);
      }
    case EnsureDomainSettles(_) => FailStartKeepsInv(s.recordings[k]);
    case StartScreencastSettles(ok, seed) => StartScreencastKeepsInv(s, k, ok, seed);
    case AckSettles(i, ok, throws) => AckKeepsInv(s, k, i, ok, throws);
    case FrameArrives(_, _, _) => FrameKeepsInv(s, k, h);
    case SeedTimerFires => FrameKeepsInv(s, k, h);
    case SeedSettles(_, _) => FrameKeepsInv(s, k, h);
    case StopScreencastSettles => FinishReleaseKeepsInv(s.recordings[k].(screencastStarted := false));
    case ReleaseSettles => FinishKeepsInv(s.recordings[k]);
    case _ => StopStepKeepsInv(s, k, h);
  }

  // ----- recordings only move forward -----

  function Rank(p: Phase): nat {
    match p case Starting => 0 case Active => 1 case Stopping => 2 case Complete => 3
  }

  /**
   b is a later state of a: no phase is left backwards, no output is taken back, and frames are added only
   while accepted.
   */
  ghost predicate Later(a: Recording, b: Recording) {
    && Rank(a.phase) <= Rank(b.phase)
    && a.output <= b.output
    && (!Accepts(a) ==> a.frameCount == b.frameCount)
  }

  /** The finish point is open exactly before a recording stops. */
  ghost predicate OpenBeforeStop(r: Recording) {
    Accepts(r) <==> r.finishPoint == NotFinishing
  }

  lemma RequestStopIsLater(r: Recording, reason: Reason, finishStarting: bool)
    requires OpenBeforeStop(r)
    ensures Later(r, RequestStop(r, reason, finishStarting))
  {
  }

  lemma FailStartIsLater(r: Recording)
    requires OpenBeforeStop(r)
    ensures Later(r, FailStart(r))
  {
  }

  lemma EmitAndStopIsLater(r: Recording, bytes: nat, stop: Option<Reason>)
    requires OpenBeforeStop(r) && Accepts(r)
    ensures Later(r, EmitAndStop(r, bytes, stop))
  {
    if stop.Some? { RequestStopIsLater(EmitFrame(r, bytes), stop.value, false); }
  }

  lemma DeliverIsLater(r: Recording, data: Option<nat>, throws: bool, max: nat)
    requires OpenBeforeStop(r)
    ensures Later(r, Deliver(r, data, throws, max))
  {
    if Accepts(r) && data.Some? {
      EmitAndStopIsLater(r, data.value, if throws then Some(Failure)
                                        else if Reaches(r, data.value, max) then Some(MaxBytes) else None);
    }
  }

  lemma DeliverSeedIsLater(r: Recording, outcome: SeedOutcome, throws: bool, max: nat)
    requires OpenBeforeStop(r)
    ensures Later(r, DeliverSeed(r, outcome, throws, max))
  {
    if Accepts(r) && outcome.Screenshot? && outcome.data.Some? {
      EmitAndStopIsLater(r, outcome.data.value,
                         if !throws && Reaches(r, outcome.data.value, max) then Some(MaxBytes) else None);
    }
  }

  lemma StartStepIsLater(s: Engine, k: nat, h: Happening)
    requires k < |s.recordings| && CanHappen(s.recordings[k], h) && RecordingInv(s.recordings[k])
    requires h.AcquireSettles? || h.EnsureDomainSettles? || h.StartScreencastSettles?
    ensures Later(s.recordings[k], NextRecording(s, k, h))
  {
    var r := s.recordings[k];
    var called := match h
      case AcquireSettles(true) => r.(acquired := true, grants := r.grants + 1)
      case StartScreencastSettles(true, _) => r.(screencastStarted := true)
      case _ => r;
    FailStartIsLater(called);
  }

  lemma FrameStepIsLater(s: Engine, k: nat, h: Happening)
    requires k < |s.recordings| && CanHappen(s.recordings[k], h) && OpenBeforeStop(s.recordings[k])
    requires h.FrameArrives? || h.AckSettles?
    ensures Later(s.recordings[k], NextRecording(s, k, h))
  {
    var r := s.recordings[k];
    if h.FrameArrives? {
      DeliverIsLater(r, h.data, h.callbackThrows, s.maxSourceBytes);
    } else {
      var taken := r.(acks := r.acks[..h.i] + r.acks[h.i + 1..]);
      DeliverIsLater(taken, r.acks[h.i], h.callbackThrows, s.maxSourceBytes);
      RequestStopIsLater(taken, Failure, false);
    }
  }

  lemma SeedStepIsLater(s: Engine, k: nat, h: Happening)
    requires k < |s.recordings| && CanHappen(s.recordings[k], h) && OpenBeforeStop(s.recordings[k])
    requires h.SeedTimerFires? || h.SeedSettles?
    ensures Later(s.recordings[k], NextRecording(s, k, h))
  {
    if h.SeedSettles? {
      DeliverSeedIsLater(s.recordings[k].(seedPending := false), h.outcome, h.callbackThrows, s.maxSourceBytes);
    }
  }

  /** Stopping after fields other than phase, output and frame count were touched. */
  lemma TouchedStopIsLater(r: Recording, touched: Recording, reason: Reason)
    requires OpenBeforeStop(r)
    requires touched.phase == r.phase && touched.finishPoint == r.finishPoint
    requires touched.output == r.output && touched.frameCount == r.frameCount
    ensures Later(r, RequestStop(touched, reason, false))
  {
    RequestStopIsLater(touched, reason, false);
  }

  lemma InterruptionIsLater(s: Engine, k: nat, h: Happening)
    requires k < |s.recordings| && CanHappen(s.recordings[k], h) && OpenBeforeStop(s.recordings[k])
    requires h.DurationTimerFires? || h.SignalAborts? || h.TransportCloses?
    ensures Later(s.recordings[k], NextRecording(s, k, h))
  {
    var r := s.recordings[k];
    if h.DurationTimerFires? {
      TouchedStopIsLater(r, r.(durationTimer := false), MaxDuration);
    } else if h.SignalAborts? {
      TouchedStopIsLater(r, r.(aborted := true, requestedReason := Some(Abort)), Abort);
    } else {
      TouchedStopIsLater(r, r.(transportClosed := true), TargetClosed);
    }
  }

  lemma NextRecordingIsLater(s: Engine, k: nat, h: Happening)
    requires k < |s.recordings| && CanHappen(s.recordings[k], h) && RecordingInv(s.recordings[k])
    ensures Later(s.recordings[k], NextRecording(s, k, h))
  {
    assert OpenBeforeStop(s.recordings[k]);
    if h.AcquireSettles? || h.EnsureDomainSettles? || h.StartScreencastSettles? {
      StartStepIsLater(s, k, h);
    } else if h.FrameArrives? || h.AckSettles? {
      FrameStepIsLater(s, k, h);
    } else if h.SeedTimerFires? || h.SeedSettles? {
      SeedStepIsLater(s, k, h);
    } else if h.StopScreencastSettles? || h.ReleaseSettles? {
      assert Later(s.recordings[k], NextRecording(s, k, h));
    } else {
      InterruptionIsLater(s, k, h);
    }
  }

  // ----- the engine invariant -----

  lemma StartKeepsInv(s: Engine, signalAborted: bool)
    requires Inv(s)
    ensures Inv(StartCalled(s, signalAborted))
  {
    if StartCalled(s, signalAborted) != s {
      var r := FRESH_RECORDING.(aborted := signalAborted);
      var k := |s.recordings|;
      var started := s.(recordings := s.recordings + [r], current := Some(k));
      assert RecordingInv(r);
      assert Inv(started);
      FailStartKeepsInv(r);
      PutKeepsInv(started, k, FailStart(r));
    }
  }

  lemma StopCurrentKeepsInv(s: Engine, reason: Reason)
    requires Inv(s)
    ensures Inv(StopCurrent(s, reason))
  {
    if s.current.Some? {
      RequestStopKeepsInv(s.recordings[s.current.value], reason);
      PutKeepsInv(s, s.current.value, RequestStop(s.recordings[s.current.value], reason, false));
    }
  }

  lemma StepKeepsInv(s: Engine, e: Event)
    requires Inv(s) && Enabled(s, e)
    ensures Inv(Next(s, e))
  {
    if e.Start? {
      StartKeepsInv(s, e.signalAborted);
    } else if e.Stop? {
      StopCurrentKeepsInv(s, e.reason);
    } else if e.Dispose? {
      if !s.disposed { StopCurrentKeepsInv(s.(disposed := true), Abort); }
    } else {
      NextRecordingKeepsInv(s, e.k, e.h);
      NextRecordingIsLater(s, e.k, e.h);
      PutKeepsInv(s.(transportClosed := s.transportClosed || e.h.TransportCloses?), e.k, NextRecording(s, e.k, e.h));
    }
  }

  // ----- what every run guarantees -----

  const NO_RECORDINGS: seq<Recording> := []

  function FreshEngine(maxSourceBytes: nat): Engine {
    Engine(maxSourceBytes, NO_RECORDINGS, None, false, false)
  }

  /** A run: events that are not enabled in the state they meet are skipped. */
  ghost function Run(s: Engine, events: seq<Event>): Engine
    requires Inv(s)
    ensures Inv(Run(s, events))
    decreases |events|
  {
    if events == [] then s
    else if !Enabled(s, events[0]) then Run(s, events[1..])
    else
      StepKeepsInv(s, events[0]);
      Run(Next(s, events[0]), events[1..])
  }

  function SumBytes(frames: seq<Output>): nat {
    if frames == [] then 0
    else SumBytes(frames[..|frames| - 1]) + (if frames[|frames| - 1].Frame? then frames[|frames| - 1].bytes else 0)
  }

  lemma {:induction false} NumberedMeans(frames: seq<Output>, n: nat, bytes: int)
    requires Numbered(frames, n, bytes)
    ensures |frames| == n && bytes == SumBytes(frames)
    ensures forall i :: 0 <= i < n ==> frames[i].Frame? && frames[i].number == i
  {
    if n > 0 { NumberedMeans(frames[..n - 1], n - 1, bytes - frames[n - 1].bytes); }
  }

  /** The consumer saw frames numbered from 0 without gaps and then, exactly when complete, a summary that fits them. */
  ghost predicate SeenInOrder(r: Recording) {
    var n := r.frameCount;
    && n <= |r.output|
    && (forall i :: 0 <= i < n ==> r.output[i].Frame? && r.output[i].number == i)
    && r.sourceBytes == SumBytes(r.output[..n])
    && (r.phase != Complete ==> |r.output| == n)
    && (r.phase == Complete ==>
          |r.output| == n + 1 && r.requestedReason.Some? &&
          r.output[n] == Completed(Summary(n, SumBytes(r.output[..n]), r.requestedReason.value)))
  }

  lemma InvSeenInOrder(r: Recording)
    requires RecordingInv(r)
    ensures SeenInOrder(r)
  {
    NumberedMeans(Frames(r), r.frameCount, r.sourceBytes);
    assert r.output[..r.frameCount] == Frames(r);
  }

  /**
   Over every run: the consumer of a recording sees its frames and its one summary in order; the owner
   is released at most once, only after it was acquired, and a completed recording still holds its owner,
   or has not ended its screencast, only if its transport closed. At most one recording is unfinished: the current one.
   */
  lemma RecordingSafety(maxSourceBytes: nat, events: seq<Event>, k: nat)
    requires maxSourceBytes > 0
    ensures Inv(FreshEngine(maxSourceBytes))
    ensures var s := Run(FreshEngine(maxSourceBytes), events);
      k < |s.recordings| ==>
      var r := s.recordings[k];
      && SeenInOrder(r)
      && r.releases <= r.grants <= 1
      && (r.phase == Complete && (r.grants > r.releases || r.screencastStarted) ==> r.transportClosed)
      && (r.phase != Complete <==> s.current == Some(k))
  {
    assert Inv(FreshEngine(maxSourceBytes));
    var s := Run(FreshEngine(maxSourceBytes), events);
    if k < |s.recordings| { InvSeenInOrder(s.recordings[k]); }
  }

  /** No start and no finishState is suspended. */
  ghost predicate Quiet(s: Engine) {
    forall k :: 0 <= k < |s.recordings| ==>
      s.recordings[k].startPoint == StartDone && s.recordings[k].finishPoint in {NotFinishing, Finished}
  }

  /** Over every run: once every CDP call of start and stop has settled, every recording is complete or active. */
  lemma EveryRecordingCompletes(maxSourceBytes: nat, events: seq<Event>, k: nat)
    requires maxSourceBytes > 0
    ensures Inv(FreshEngine(maxSourceBytes))
    ensures var s := Run(FreshEngine(maxSourceBytes), events);
      Quiet(s) && k < |s.recordings| ==>
        s.recordings[k].phase == (if s.current == Some(k) then Active else Complete)
  {
    assert Inv(FreshEngine(maxSourceBytes));
    var s := Run(FreshEngine(maxSourceBytes), events);
    if k < |s.recordings| { assert RecordingInv(s.recordings[k]); }
  }

  /** Every step only moves recordings forward. */
  lemma RecordingsMoveForward(s: Engine, e: Event, k: nat)
    requires Inv(s) && Enabled(s, e) && k < |s.recordings|
    ensures k < |Next(s, e).recordings| && Later(s.recordings[k], Next(s, e).recordings[k])
  {
    if e.At? && e.k == k {
      NextRecordingIsLater(s, k, e.h);
    } else if (e.Stop? || e.Dispose?) && s.current == Some(k) {
      assert OpenBeforeStop(s.recordings[k]);
      RequestStopIsLater(s.recordings[k], if e.Stop? then e.reason else Abort, false);
    }
  }

  // ----- frames reach the consumer -----

  /** Nothing is shown, nothing is counted and nothing is stopped between r and t. */
  ghost predicate NothingShown(r: Recording, t: Recording) {
    && t.output == r.output && t.frameCount == r.frameCount && t.sourceBytes == r.sourceBytes
    && t.phase == r.phase && t.requestedReason == r.requestedReason
  }

  /** From r to t a stop was requested, if there is a reason: it starts at once while active, not while starting. */
  ghost predicate StopRequested(r: Recording, t: Recording, stop: Option<Reason>) {
    && (r.phase == Starting || stop.None? ==> t.phase == r.phase)
    && (r.phase == Active && stop.Some? ==> t.phase in {Stopping, Complete})
    && t.requestedReason == (if r.requestedReason.Some? then r.requestedReason else stop)
  }

  /** From r to t the consumer was shown one frame of this size, and the summary if that completed the recording. */
  ghost predicate FrameShown(r: Recording, t: Recording, bytes: nat, stop: Option<Reason>) {
    && t.frameCount == r.frameCount + 1 && t.sourceBytes == r.sourceBytes + bytes
    && (t.phase != Complete ==> t.output == r.output + [Frame(r.frameCount, bytes)])
    && (t.phase == Complete ==>
          t.requestedReason.Some? &&
          t.output == r.output + [Frame(r.frameCount, bytes),
                                  Completed(Summary(r.frameCount + 1, r.sourceBytes + bytes, t.requestedReason.value))])
    && StopRequested(r, t, stop)
  }

  lemma RequestStopRequests(r: Recording, reason: Reason)
    requires RecordingInv(r) && Accepts(r)
    ensures StopRequested(r, RequestStop(r, reason, false), Some(reason))
    ensures var t := RequestStop(r, reason, false);
      && t.frameCount == r.frameCount && t.sourceBytes == r.sourceBytes
      && t.acks == r.acks && t.seedPending == r.seedPending
      && (t.phase != Complete ==> t.output == r.output)
      && (t.phase == Complete ==>
            t.output == r.output + [Completed(Summary(r.frameCount, r.sourceBytes, r.requestedReason.GetOr(reason)))])
  {
  }

  /** taken is r but for the acks it waits for and the screenshot it waits for. */
  ghost predicate SameButWaiting(r: Recording, taken: Recording) {
    taken == r.(acks := taken.acks, seedPending := taken.seedPending)
  }

  lemma StopAfterFrame(r: Recording, shown: Recording, bytes: nat, reason: Reason)
    requires RecordingInv(shown) && Accepts(shown) && FrameShown(r, shown, bytes, None)
    ensures var t := RequestStop(shown, reason, false);
      FrameShown(r, t, bytes, Some(reason)) && t.acks == shown.acks && t.seedPending == shown.seedPending
  {
    RequestStopRequests(shown, reason);
    var summary := Completed(Summary(shown.frameCount, shown.sourceBytes, shown.requestedReason.GetOr(reason)));
    assert shown.output + [summary] == r.output + [Frame(r.frameCount, bytes), summary];
  }

  lemma EmitAndStopShows(r: Recording, taken: Recording, bytes: nat, stop: Option<Reason>)
    requires RecordingInv(taken) && SameButWaiting(r, taken) && Accepts(r)
    ensures var t := EmitAndStop(taken, bytes, stop);
      FrameShown(r, t, bytes, stop) && t.acks == taken.acks && t.seedPending == taken.seedPending
  {
    if stop.Some? {
      EmitFrameKeepsInv(taken, bytes);
      StopAfterFrame(r, EmitFrame(taken, bytes), bytes, stop.value);
    }
  }

  /** Why a frame of this size stops a recording that has r's total. */
  ghost function StopReason(r: Recording, bytes: nat, callbackThrows: bool, maxSourceBytes: nat): Option<Reason> {
    if callbackThrows then Some(Failure)
    else if r.sourceBytes + bytes >= maxSourceBytes then Some(MaxBytes)
    else None
  }

  lemma DeliverEmits(r: Recording, data: Option<nat>, throws: bool, max: nat)
    ensures Deliver(r, data, throws, max) ==
      if r.phase in {Starting, Active} && data.Some?
      then EmitAndStop(r, data.value, StopReason(r, data.value, throws, max)) else r
  {
  }

  /** What a delivered frame makes of a recording. */
  ghost predicate FrameHandled(r: Recording, t: Recording, data: Option<nat>, callbackThrows: bool, max: nat) {
    && (r.phase in {Starting, Active} && data.Some? ==>
          FrameShown(r, t, data.value, StopReason(r, data.value, callbackThrows, max)))
    && (r.phase !in {Starting, Active} || data.None? ==> NothingShown(r, t))
  }

  lemma DeliverShows(r: Recording, taken: Recording, data: Option<nat>, throws: bool, max: nat)
    requires RecordingInv(taken) && SameButWaiting(r, taken)
    ensures var t := Deliver(taken, data, throws, max);
      FrameHandled(r, t, data, throws, max) && t.acks == taken.acks
  {
    DeliverEmits(taken, data, throws, max);
    if Accepts(r) && data.Some? { EmitAndStopShows(r, taken, data.value, StopReason(taken, data.value, throws, max)); }
  }

  lemma TakenKeepsInv(r: Recording, i: nat)
    requires RecordingInv(r) && i < |r.acks|
    ensures var taken := r.(acks := r.acks[..i] + r.acks[i + 1..]);
      RecordingInv(taken) && SameButWaiting(r, taken)
  {
  }

  /**
   A frame that needs no ack reaches the consumer in the step in which it arrives, any other in the step in which
   its ack succeeds: exactly when the recording still accepts frames and the frame has data. It is numbered and
   counted, and it stops the recording exactly when the callback throws or the total reaches the limit.
   */
  lemma FrameReachesConsumer(s: Engine, k: nat, h: Happening)
    requires Inv(s) && Enabled(s, At(k, h))
    requires (h.FrameArrives? && !h.needsAck) || (h.AckSettles? && h.ok)
    ensures k < |Next(s, At(k, h)).recordings|
    ensures var (r, t) := (s.recordings[k], Next(s, At(k, h)).recordings[k]);
      && FrameHandled(r, t, if h.FrameArrives? then h.data else r.acks[h.i], h.callbackThrows, s.maxSourceBytes)
      && t.acks == (if h.FrameArrives? then r.acks else r.acks[..h.i] + r.acks[h.i + 1..])
  {
    var r := s.recordings[k];
    if h.FrameArrives? {
      DeliverShows(r, r, h.data, h.callbackThrows, s.maxSourceBytes);
    } else {
      TakenKeepsInv(r, h.i);
      DeliverShows(r, r.(acks := r.acks[..h.i] + r.acks[h.i + 1..]), r.acks[h.i], h.callbackThrows, s.maxSourceBytes);
    }
  }

  /** A frame that needs an ack waits for it with its data; an ack that fails stops the recording without the frame. */
  lemma FrameWaitsForAck(s: Engine, k: nat, h: Happening)
    requires Inv(s) && Enabled(s, At(k, h))
    requires (h.FrameArrives? && h.needsAck) || (h.AckSettles? && !h.ok)
    ensures var (r, t) := (s.recordings[k], Next(s, At(k, h)).recordings[k]);
      && t.frameCount == r.frameCount && t.sourceBytes == r.sourceBytes
      && (h.FrameArrives? ==> t.acks == r.acks + [h.data] && NothingShown(r, t))
      && (h.AckSettles? ==>
            && t.acks == r.acks[..h.i] + r.acks[h.i + 1..]
            && (r.phase in {Starting, Active} ==> StopRequested(r, t, Some(Failure)))
            && (r.phase !in {Starting, Active} ==> NothingShown(r, t)))
  {
    var r := s.recordings[k];
    if h.AckSettles? {
      TakenKeepsInv(r, h.i);
      FailedAckStops(r, r.(acks := r.acks[..h.i] + r.acks[h.i + 1..]));
    }
  }

  lemma FailedAckStops(r: Recording, taken: Recording)
    requires RecordingInv(taken) && SameButWaiting(r, taken)
    ensures var t := RequestStop(taken, Failure, false);
      && t.frameCount == r.frameCount && t.sourceBytes == r.sourceBytes && t.acks == taken.acks
      && (r.phase in {Starting, Active} ==> StopRequested(r, t, Some(Failure)))
      && (r.phase !in {Starting, Active} ==> NothingShown(r, t))
  {
    if Accepts(r) { RequestStopRequests(taken, Failure); }
  }

  lemma DeliverSeedShows(r: Recording, outcome: SeedOutcome, throws: bool, max: nat)
    requires RecordingInv(r) && (r.phase == Starting ==> !r.seedPending)
    ensures var t := DeliverSeed(r.(seedPending := false), outcome, throws, max);
      r.seedPending ==> SeedHandled(r, t, outcome, throws, max)
  {
    var settled := r.(seedPending := false);
    assert RecordingInv(settled);
    if r.phase == Active && r.frameCount == 0 && outcome.Screenshot? && outcome.data.Some? {
      assert r.sourceBytes == 0;
      var bytes := outcome.data.value;
      EmitAndStopShows(r, settled, bytes, if !throws && bytes >= max then Some(MaxBytes) else None);
    }
  }

  ghost predicate SeedHandled(r: Recording, t: Recording, outcome: SeedOutcome, callbackThrows: bool, max: nat) {
    var shown := r.phase == Active && r.frameCount == 0 && outcome.Screenshot? && outcome.data.Some?;
    && !t.seedPending
    && (shown ==> FrameShown(r, t, outcome.data.value,
                             if !callbackThrows && outcome.data.value >= max then Some(MaxBytes) else None))
    && (!shown ==> NothingShown(r, t))
  }

  /**
   The seed screenshot reaches the consumer exactly when it has data, the recording is active and no frame came
   first; a callback that throws is swallowed together with the check of the limit.
   */
  lemma SeedReachesConsumer(s: Engine, k: nat, h: Happening)
    requires Inv(s) && Enabled(s, At(k, h)) && h.SeedSettles?
    ensures k < |Next(s, At(k, h)).recordings|
    ensures SeedHandled(s.recordings[k], Next(s, At(k, h)).recordings[k], h.outcome, h.callbackThrows, s.maxSourceBytes)
  {
    DeliverSeedShows(s.recordings[k], h.outcome, h.callbackThrows, s.maxSourceBytes);
  }

  /** The screenshot is asked for only while the recording is active and no frame came yet. */
  lemma SeedIsAskedFor(s: Engine, k: nat)
    requires Inv(s) && Enabled(s, At(k, SeedTimerFires))
    ensures k < |Next(s, At(k, SeedTimerFires)).recordings|
    ensures var (r, t) := (s.recordings[k], Next(s, At(k, SeedTimerFires)).recordings[k]);
      && NothingShown(r, t) && !t.seedTimer
      && (t.seedPending <==> r.seedPending || r.frameCount == 0)
  {
    assert RecordingInv(s.recordings[k]);
  }

  // ----- what stops a recording stops it for good -----

  /** Recording k is not active and nothing can activate it. */
  ghost predicate Doomed(s: Engine, k: nat) {
    && k < |s.recordings|
    && var r := s.recordings[k];
    && r.phase != Active
    && (r.phase == Starting ==> r.requestedReason.Some? || r.aborted || r.transportClosed || s.disposed)
  }

  /** A start that may not go on fails. */
  lemma DoomedStartStays(s: Engine, k: nat, h: Happening)
    requires Inv(s) && Enabled(s, At(k, h)) && Doomed(s, k)
    requires h.AcquireSettles? || h.EnsureDomainSettles? || h.StartScreencastSettles?
    ensures NextRecording(s, k, h).phase in {Stopping, Complete}
  {
    var r := s.recordings[k];
    assert !CanContinue(s, k);
    match h
    case AcquireSettles(ok) => if ok { GrantKeepsInv(r, false); RefusedGrantFails(r); }
    case EnsureDomainSettles(_) => FailStartStops(r);
    case StartScreencastSettles(ok, _) => FailStartStops(if ok then r.(screencastStarted := true) else r);
  }

  /** What forbids a starting recording to go on is kept from a to b. */
  ghost predicate StaysForbidden(a: Recording, b: Recording) {
    && a.phase == b.phase == Starting
    && (a.requestedReason.Some? ==> b.requestedReason.Some?)
    && (a.aborted ==> b.aborted) && (a.transportClosed ==> b.transportClosed)
  }

  lemma EmitStaysForbidden(r: Recording, taken: Recording, bytes: nat, stop: Option<Reason>)
    requires r.phase == Starting && taken == r.(acks := taken.acks)
    ensures StaysForbidden(r, EmitAndStop(taken, bytes, stop))
  {
    if stop.Some? { StopStaysForbidden(EmitFrame(taken, bytes), stop.value); }
  }

  lemma StopStaysForbidden(r: Recording, reason: Reason)
    requires r.phase == Starting
    ensures StaysForbidden(r, RequestStop(r, reason, false))
  {
  }

  lemma DeliverStaysForbidden(r: Recording, taken: Recording, data: Option<nat>, throws: bool, max: nat)
    requires r.phase == Starting && taken == r.(acks := taken.acks)
    ensures StaysForbidden(r, Deliver(taken, data, throws, max))
  {
    DeliverEmits(taken, data, throws, max);
    if data.Some? { EmitStaysForbidden(r, taken, data.value, StopReason(taken, data.value, throws, max)); }
  }

  lemma FrameStaysForbidden(s: Engine, k: nat, h: Happening)
    requires k < |s.recordings| && CanHappen(s.recordings[k], h) && RecordingInv(s.recordings[k])
    requires s.recordings[k].phase == Starting && (h.FrameArrives? || h.AckSettles?)
    ensures StaysForbidden(s.recordings[k], NextRecording(s, k, h))
  {
    var r := s.recordings[k];
    if h.FrameArrives? {
      DeliverStaysForbidden(r, r, h.data, h.callbackThrows, s.maxSourceBytes);
    } else {
      var taken := r.(acks := r.acks[..h.i] + r.acks[h.i + 1..]);
      DeliverStaysForbidden(r, taken, r.acks[h.i], h.callbackThrows, s.maxSourceBytes);
    }
  }

  lemma InterruptionStaysForbidden(s: Engine, k: nat, h: Happening)
    requires k < |s.recordings| && CanHappen(s.recordings[k], h) && RecordingInv(s.recordings[k])
    requires s.recordings[k].phase == Starting
    requires !h.AcquireSettles? && !h.EnsureDomainSettles? && !h.StartScreencastSettles?
    requires !h.FrameArrives? && !h.AckSettles?
    ensures StaysForbidden(s.recordings[k], NextRecording(s, k, h))
  {
  }

  lemma DoomedHappeningStays(s: Engine, k: nat, h: Happening)
    requires Inv(s) && Enabled(s, At(k, h)) && Doomed(s, k) && s.recordings[k].phase == Starting
    ensures var t := NextRecording(s, k, h);
      t.phase in {Stopping, Complete} || StaysForbidden(s.recordings[k], t)
  {
    if h.AcquireSettles? || h.EnsureDomainSettles? || h.StartScreencastSettles? {
      DoomedStartStays(s, k, h);
    } else if h.FrameArrives? || h.AckSettles? {
      FrameStaysForbidden(s, k, h);
    } else {
      InterruptionStaysForbidden(s, k, h);
    }
  }

  /** A recording that is not current is complete. */
  lemma DoomedStays(s: Engine, e: Event, k: nat)
    requires Inv(s) && Enabled(s, e) && Doomed(s, k)
    ensures Doomed(Next(s, e), k)
  {
    if s.recordings[k].phase != Starting {
      RecordingsMoveForward(s, e, k);
    } else if e.At? && e.k == k {
      DoomedHappeningStays(s, k, e.h);
      assert Next(s, e).recordings[k] == NextRecording(s, k, e.h) && Next(s, e).disposed == s.disposed;
    }
  }

  lemma {:induction false} DoomedNeverActive(s: Engine, events: seq<Event>, k: nat)
    requires Inv(s) && Doomed(s, k)
    ensures Doomed(Run(s, events), k)
    decreases |events|
  {
    if events != [] {
      if Enabled(s, events[0]) {
        StepKeepsInv(s, events[0]);
        DoomedStays(s, events[0], k);
        DoomedNeverActive(Next(s, events[0]), events[1..], k);
      } else {
        DoomedNeverActive(s, events[1..], k);
      }
    }
  }

  predicate EndsRecording(s: Engine, e: Event, k: nat) {
    match e
    case Stop(_) => true
    case Dispose => !s.disposed
    case At(j, h) => j == k && (h.DurationTimerFires? || h.SignalAborts? || h.TransportCloses?)
    case Start(_) => false
  }

  lemma StopRequestEnds(r: Recording, reason: Reason)
    requires Accepts(r) && r.finishPoint == NotFinishing
    ensures var t := RequestStop(r, reason, false);
      t.phase != Active && t.requestedReason == Some(r.requestedReason.GetOr(reason))
  {
  }

  /** Why a recording stops that e ends: the first reason is kept, but for what the listeners of a start put. */
  ghost function EndReason(r: Recording, e: Event): Reason {
    match e
    case Stop(reason) => r.requestedReason.GetOr(reason)
    case At(_, DurationTimerFires) => r.requestedReason.GetOr(MaxDuration)
    case At(_, SignalAborts) => Abort
    case At(_, TransportCloses) => if r.phase == Starting then TargetClosed else r.requestedReason.GetOr(TargetClosed)
    case _ => r.requestedReason.GetOr(Abort)
  }

  lemma InterruptionEnds(s: Engine, k: nat, h: Happening)
    requires k < |s.recordings| && CanHappen(s.recordings[k], h) && OpenBeforeStop(s.recordings[k])
    requires Accepts(s.recordings[k]) && (h.DurationTimerFires? || h.SignalAborts? || h.TransportCloses?)
    ensures var t := NextRecording(s, k, h);
      t.phase != Active && t.requestedReason == Some(EndReason(s.recordings[k], At(k, h)))
  {
    var r := s.recordings[k];
    match h
    case DurationTimerFires => StopRequestEnds(r.(durationTimer := false), MaxDuration);
    case SignalAborts => StopRequestEnds(r.(aborted := true, requestedReason := Some(Abort)), Abort);
    case TransportCloses => StopRequestEnds(r.(transportClosed := true), TargetClosed);
  }

  /** What ends a recording that accepts frames stops it, or leaves a starting one with a reason to stop. */
  lemma RecordingEnds(s: Engine, e: Event, k: nat)
    requires Inv(s) && Enabled(s, e) && s.current == Some(k) && EndsRecording(s, e, k) && Accepts(s.recordings[k])
    ensures k < |Next(s, e).recordings|
    ensures var t := Next(s, e).recordings[k];
      t.phase != Active && t.requestedReason == Some(EndReason(s.recordings[k], e))
  {
    var r := s.recordings[k];
    assert OpenBeforeStop(r);
    if e.At? {
      InterruptionEnds(s, k, e.h);
    } else {
      StopRequestEnds(r, if e.Stop? then e.reason else Abort);
    }
  }

  lemma StopDooms(s: Engine, e: Event, k: nat)
    requires Inv(s) && Enabled(s, e) && s.current == Some(k) && EndsRecording(s, e, k)
    ensures Doomed(Next(s, e), k)
  {
    if Accepts(s.recordings[k]) {
      RecordingEnds(s, e, k);
    } else {
      RecordingsMoveForward(s, e, k);
    }
  }

  /**
   A stop, a dispose, the duration timer, the signal and a closed transport each end the current recording, starting
   or active: whatever happens afterwards it is never active, and once every CDP call has settled it is complete,
   with its frames and its one summary seen in order.
   */
  lemma StoppedForGood(s: Engine, e: Event, events: seq<Event>, k: nat)
    requires Inv(s) && Enabled(s, e) && s.current == Some(k) && EndsRecording(s, e, k)
    ensures Inv(Next(s, e)) && k < |Next(s, e).recordings|
    ensures s.recordings[k].phase in {Starting, Active} ==>
      Next(s, e).recordings[k].requestedReason == Some(EndReason(s.recordings[k], e))
    ensures var t := Run(Next(s, e), events);
      k < |t.recordings| && t.recordings[k].phase != Active
      && (Quiet(t) ==> t.recordings[k].phase == Complete && SeenInOrder(t.recordings[k]))
  {
    StepKeepsInv(s, e);
    StopDooms(s, e, k);
    if Accepts(s.recordings[k]) { RecordingEnds(s, e, k); }
    DoomedNeverActive(Next(s, e), events, k);
    var t := Run(Next(s, e), events);
    assert RecordingInv(t.recordings[k]);
    InvSeenInOrder(t.recordings[k]);
  }

  /** After a dispose or a closed transport no recording is ever added. */
  lemma {:induction false} NoRecordingAdded(s: Engine, events: seq<Event>)
    requires Inv(s) && (s.disposed || s.transportClosed)
    ensures |Run(s, events).recordings| == |s.recordings|
    decreases |events|
  {
    if events != [] {
      if Enabled(s, events[0]) {
        StepKeepsInv(s, events[0]);
        NoRecordingAdded(Next(s, events[0]), events[1..]);
      } else {
        NoRecordingAdded(s, events[1..]);
      }
    }
  }

  /** A start whose signal has fired leaves a recording that is complete at once: no frame, nothing acquired. */
  lemma AbortedStart(s: Engine)
    requires Inv(s) && s.current.None? && !s.disposed && !s.transportClosed
    ensures var (k, t) := (|s.recordings|, Next(s, Start(true)));
      && |t.recordings| == k + 1 && t.current.None?
      && t.recordings[k].phase == Complete && t.recordings[k].grants == 0
      && t.recordings[k].output == [Completed(Summary(0, 0, Abort))]
  {
    var r := FRESH_RECORDING.(aborted := true);
    assert FailStart(r).output == [] + [Completed(Summary(0, 0, Abort))];
  }

  /** A start while a recording is unfinished is refused. */
  lemma OneAtATime(s: Engine, signalAborted: bool, k: nat)
    requires Inv(s) && k < |s.recordings| && s.recordings[k].phase != Complete
    ensures Next(s, Start(signalAborted)) == s
  {
    assert Unfinished(s.recordings[k]) <==> s.current == Some(k);
  }

  /** Undisturbed, a start leads to an active recording without frames that holds its owner. */
  lemma UndisturbedStart(s: Engine, captureSeedFrame: bool)
    requires Inv(s) && s.current.None? && !s.disposed && !s.transportClosed
    ensures var k := |s.recordings|;
      var begun := Next(s, Start(false));
      && Enabled(begun, At(k, AcquireSettles(true)))
      && var acquired := Next(begun, At(k, AcquireSettles(true)));
      && Enabled(acquired, At(k, EnsureDomainSettles(true)))
      && var ready := Next(acquired, At(k, EnsureDomainSettles(true)));
      && Enabled(ready, At(k, StartScreencastSettles(true, captureSeedFrame)))
      && var active := Next(ready, At(k, StartScreencastSettles(true, captureSeedFrame)));
      && active.current == Some(k) && k < |active.recordings|
      && var r := active.recordings[k];
      r.phase == Active && r.output == [] && r.grants == 1 && r.releases == 0 && r.durationTimer
  {
    StepKeepsInv(s, Start(false));
  }

  // ----- the byte limit -----

  /** All frames but the last. */
  ghost function BytesBeforeLast(r: Recording): int {
    r.sourceBytes - (if Frames(r) == [] then 0 else LastBytes(Frames(r)))
  }

  ghost function LastBytes(frames: seq<Output>): nat
    requires frames != []
  {
    if frames[|frames| - 1].Frame? then frames[|frames| - 1].bytes else 0
  }

  ghost predicate Limited(r: Recording, max: nat) {
    && (r.phase == Active ==> r.sourceBytes < max)
    && (r.phase == Starting && r.sourceBytes >= max ==> r.requestedReason.Some?)
    && (r.activated ==> BytesBeforeLast(r) < max)
  }

  ghost predicate AllLimited(s: Engine) {
    forall k :: 0 <= k < |s.recordings| ==> Limited(s.recordings[k], s.maxSourceBytes)
  }

  /** A seed frame of at least the limit whose callback throws: the error is swallowed with the byte check. */
  predicate SwallowedOverrun(r: Recording, h: Happening, max: nat) {
    h.SeedSettles? && h.callbackThrows && h.outcome.Screenshot? && h.outcome.data.Some? &&
    Accepts(r) && r.frameCount == 0 && h.outcome.data.value >= max
  }

  lemma RequestStopIsLimited(r: Recording, reason: Reason, max: nat)
    requires RecordingInv(r)
    requires r.activated ==> BytesBeforeLast(r) < max
    ensures Limited(RequestStop(r, reason, false), max)
  {
    assert Frames(RequestStop(r, reason, false)) == Frames(r);
  }

  lemma FailStartIsLimited(r: Recording, max: nat)
    requires RecordingInv(r) && r.phase == Starting
    ensures Limited(FailStart(r), max)
  {
    FailStartKeepsInv(r);
  }

  /** A frame may be the last one over the limit if the recording then stops or is still starting. */
  lemma EmitAndStopIsLimited(r: Recording, bytes: nat, stop: Option<Reason>, max: nat)
    requires RecordingInv(r) && Limited(r, max) && Accepts(r)
    requires stop.None? ==> r.phase == Active
    ensures Limited(EmitAndStop(r, bytes, stop), max) <==> (stop.Some? || !Reaches(r, bytes, max))
  {
    EmitFrameKeepsInv(r, bytes);
    assert BytesBeforeLast(EmitFrame(r, bytes)) == r.sourceBytes;
    if stop.Some? { RequestStopIsLimited(EmitFrame(r, bytes), stop.value, max); }
  }

  /** While starting only the total matters. */
  lemma EarlyFrameIsLimited(r: Recording, bytes: nat, max: nat)
    requires RecordingInv(r) && Limited(r, max) && r.phase == Starting && !Reaches(r, bytes, max)
    ensures Limited(EmitFrame(r, bytes), max)
  {
  }

  lemma DeliverIsLimited(r: Recording, data: Option<nat>, throws: bool, max: nat)
    requires RecordingInv(r) && Limited(r, max)
    ensures Limited(Deliver(r, data, throws, max), max)
  {
    if Accepts(r) && data.Some? {
      if r.phase == Starting && !throws && !Reaches(r, data.value, max) {
        EarlyFrameIsLimited(r, data.value, max);
      } else {
        EmitAndStopIsLimited(r, data.value, if throws then Some(Failure)
                                            else if Reaches(r, data.value, max) then Some(MaxBytes) else None, max);
      }
    }
  }

  lemma DeliverSeedIsLimited(r: Recording, outcome: SeedOutcome, throws: bool, max: nat)
    requires RecordingInv(r) && Limited(r, max) && r.phase != Starting
    ensures Limited(DeliverSeed(r, outcome, throws, max), max) <==>
      !SwallowedOverrun(r, SeedSettles(outcome, throws), max)
  {
    if Accepts(r) && outcome.Screenshot? && outcome.data.Some? && r.frameCount == 0 {
      EmitAndStopIsLimited(r, outcome.data.value,
                           if !throws && Reaches(r, outcome.data.value, max) then Some(MaxBytes) else None, max);
      assert r.sourceBytes == 0;
    }
  }

  lemma AcquireIsLimited(s: Engine, k: nat, ok: bool)
    requires k < |s.recordings| && CanHappen(s.recordings[k], AcquireSettles(ok))
    requires RecordingInv(s.recordings[k]) && Limited(s.recordings[k], s.maxSourceBytes)
    ensures Limited(NextRecording(s, k, AcquireSettles(ok)), s.maxSourceBytes)
  {
    if ok {
      GrantKeepsInv(s.recordings[k], CanContinue(s, k));
    } else {
      FailStartIsLimited(s.recordings[k], s.maxSourceBytes);
    }
  }

  /** An overrun while starting has left a reason, and a reason forbids activation. */
  lemma StartScreencastIsLimited(s: Engine, k: nat, ok: bool, seed: bool)
    requires k < |s.recordings| && CanHappen(s.recordings[k], StartScreencastSettles(ok, seed))
    requires RecordingInv(s.recordings[k]) && Limited(s.recordings[k], s.maxSourceBytes)
    ensures Limited(NextRecording(s, k, StartScreencastSettles(ok, seed)), s.maxSourceBytes)
  {
    var r := s.recordings[k];
    var started := if ok then r.(screencastStarted := true) else r;
    if ok && CanContinue(s, k) {
      assert r.sourceBytes < s.maxSourceBytes;
      assert Frames(Activate(started, seed)) == Frames(r);
    } else {
      FailStartIsLimited(started, s.maxSourceBytes);
    }
  }

  lemma InterruptionIsLimited(s: Engine, k: nat, h: Happening)
    requires k < |s.recordings| && CanHappen(s.recordings[k], h)
    requires RecordingInv(s.recordings[k]) && Limited(s.recordings[k], s.maxSourceBytes)
    requires h.DurationTimerFires? || h.SignalAborts? || h.TransportCloses?
    ensures Limited(NextRecording(s, k, h), s.maxSourceBytes)
  {
    var r, max := s.recordings[k], s.maxSourceBytes;
    match h
    case DurationTimerFires => RequestStopIsLimited(r.(durationTimer := false), MaxDuration, max);
    case SignalAborts =>
      if Accepts(r) { RequestStopIsLimited(r.(aborted := true, requestedReason := Some(Abort)), Abort, max); }
    case TransportCloses => RequestStopIsLimited(r.(transportClosed := true), TargetClosed, max);
  }

  lemma FinishStepIsLimited(s: Engine, k: nat, h: Happening)
    requires k < |s.recordings| && CanHappen(s.recordings[k], h)
    requires RecordingInv(s.recordings[k]) && Limited(s.recordings[k], s.maxSourceBytes)
    requires h.StopScreencastSettles? || h.ReleaseSettles?
    ensures Limited(NextRecording(s, k, h), s.maxSourceBytes)
  {
    assert Frames(NextRecording(s, k, h)) == Frames(s.recordings[k]);
  }

  lemma StartStepIsLimited(s: Engine, k: nat, h: Happening)
    requires k < |s.recordings| && CanHappen(s.recordings[k], h)
    requires RecordingInv(s.recordings[k]) && Limited(s.recordings[k], s.maxSourceBytes)
    requires h.AcquireSettles? || h.EnsureDomainSettles? || h.StartScreencastSettles?
    ensures Limited(NextRecording(s, k, h), s.maxSourceBytes)
  {
    match h
    case AcquireSettles(ok) => AcquireIsLimited(s, k, ok);
    case EnsureDomainSettles(_) => FailStartIsLimited(s.recordings[k], s.maxSourceBytes);
    case StartScreencastSettles(ok, seed) => StartScreencastIsLimited(s, k, ok, seed);
  }

  lemma FrameStepIsLimited(s: Engine, k: nat, h: Happening)
    requires k < |s.recordings| && CanHappen(s.recordings[k], h)
    requires RecordingInv(s.recordings[k]) && Limited(s.recordings[k], s.maxSourceBytes)
    requires h.FrameArrives? || h.SeedTimerFires?
    ensures Limited(NextRecording(s, k, h), s.maxSourceBytes)
  {
    if h.FrameArrives? { DeliverIsLimited(s.recordings[k], h.data, h.callbackThrows, s.maxSourceBytes); }
  }

  lemma AckIsLimited(s: Engine, k: nat, h: Happening)
    requires k < |s.recordings| && CanHappen(s.recordings[k], h) && h.AckSettles?
    requires RecordingInv(s.recordings[k]) && Limited(s.recordings[k], s.maxSourceBytes)
    ensures Limited(NextRecording(s, k, h), s.maxSourceBytes)
  {
    var r := s.recordings[k];
    var taken := r.(acks := r.acks[..h.i] + r.acks[h.i + 1..]);
    assert RecordingInv(taken) && Limited(taken, s.maxSourceBytes);
    if h.ok {
      DeliverIsLimited(taken, r.acks[h.i], h.callbackThrows, s.maxSourceBytes);
    } else {
      RequestStopIsLimited(taken, Failure, s.maxSourceBytes);
    }
  }

  lemma SeedStepIsLimited(s: Engine, k: nat, h: Happening)
    requires k < |s.recordings| && CanHappen(s.recordings[k], h) && h.SeedSettles?
    requires RecordingInv(s.recordings[k]) && Limited(s.recordings[k], s.maxSourceBytes)
    ensures Limited(NextRecording(s, k, h), s.maxSourceBytes)
      <==> !SwallowedOverrun(s.recordings[k], h, s.maxSourceBytes)
  {
    var settled := s.recordings[k].(seedPending := false);
    assert RecordingInv(settled) && Limited(settled, s.maxSourceBytes);
    DeliverSeedIsLimited(settled, h.outcome, h.callbackThrows, s.maxSourceBytes);
  }

  lemma NextRecordingIsLimited(s: Engine, k: nat, h: Happening)
    requires k < |s.recordings| && CanHappen(s.recordings[k], h)
    requires RecordingInv(s.recordings[k]) && Limited(s.recordings[k], s.maxSourceBytes)
    ensures Limited(NextRecording(s, k, h), s.maxSourceBytes)
      <==> !SwallowedOverrun(s.recordings[k], h, s.maxSourceBytes)
  {
    if h.SeedSettles? {
      SeedStepIsLimited(s, k, h);
    } else if h.AcquireSettles? || h.EnsureDomainSettles? || h.StartScreencastSettles? {
      StartStepIsLimited(s, k, h);
    } else if h.FrameArrives? || h.SeedTimerFires? {
      FrameStepIsLimited(s, k, h);
    } else if h.AckSettles? {
      AckIsLimited(s, k, h);
    } else if h.StopScreencastSettles? || h.ReleaseSettles? {
      FinishStepIsLimited(s, k, h);
    } else {
      InterruptionIsLimited(s, k, h);
    }
  }

  /**
   When the byte limit survives a step, exactly: unless the step delivers a seed frame of at least the
   limit to a callback that throws.
   */
  lemma LimitKeptExactly(s: Engine, e: Event)
    requires Inv(s) && Enabled(s, e) && AllLimited(s)
    ensures AllLimited(Next(s, e)) <==>
      !(e.At? && SwallowedOverrun(s.recordings[e.k], e.h, s.maxSourceBytes))
  {
    var t := Next(s, e);
    match e
    case At(k, h) =>
      NextRecordingIsLimited(s, k, h);
      assert t.recordings[k] == NextRecording(s, k, h);
    case Start(signalAborted) =>
      if t != s {
        var r := FRESH_RECORDING.(aborted := signalAborted);
        assert RecordingInv(r);
        FailStartIsLimited(r, s.maxSourceBytes);
      }
    case Stop(reason) =>
      if s.current.Some? { RequestStopIsLimited(s.recordings[s.current.value], reason, s.maxSourceBytes); }
    case Dispose =>
      if s.current.Some? { RequestStopIsLimited(s.recordings[s.current.value], Abort, s.maxSourceBytes); }
  }

  /**
   Over every run in which the consumer's seed frame callback returns normally: an active recording is
   below the byte limit, and after activation at most the last frame crosses it.
   */
  lemma {:induction false} ByteLimit(s: Engine, events: seq<Event>)
    requires Inv(s) && AllLimited(s)
    requires forall e :: e in events ==> !(e.At? && e.h.SeedSettles? && e.h.callbackThrows)
    ensures AllLimited(Run(s, events)) && Run(s, events).maxSourceBytes == s.maxSourceBytes
    decreases |events|
  {
    if events != [] {
      assert events[0] in events;
      if Enabled(s, events[0]) {
        LimitKeptExactly(s, events[0]);
        StepKeepsInv(s, events[0]);
        ByteLimit(Next(s, events[0]), events[1..]);
      } else {
        ByteLimit(s, events[1..]);
      }
    }
  }

  lemma RunCons(s: Engine, e: Event, events: seq<Event>)
    requires Inv(s) && Enabled(s, e)
    ensures Inv(Next(s, e)) && Run(s, [e] + events) == Run(Next(s, e), events)
  {
    StepKeepsInv(s, e);
    assert ([e] + events)[1..] == events;
  }

  /**
   A recording that stays active over its limit: the seed frame alone has the limit's size and its callback
   throws.
   */
  lemma SwallowedOverrunStaysActive(max: nat)
    requires max > 0
    ensures Inv(FreshEngine(max))
    ensures var s := Run(FreshEngine(max),
                         [Start(false)] + ([At(0, AcquireSettles(true))] + ([At(0, EnsureDomainSettles(true))]
                         + ([At(0, StartScreencastSettles(true, true))] + ([At(0, SeedTimerFires)]
                         + ([At(0, SeedSettles(Screenshot(Some(max)), true))] + []))))));
      |s.recordings| == 1 && s.recordings[0].phase == Active && s.recordings[0].sourceBytes >= s.maxSourceBytes
  {
    var s0 := FreshEngine(max);
    var e5 := At(0, SeedSettles(Screenshot(Some(max)), true));
    var t5 := [e5] + [];
    var t4 := [At(0, SeedTimerFires)] + t5;
    var t3 := [At(0, StartScreencastSettles(true, true))] + t4;
    var t2 := [At(0, EnsureDomainSettles(true))] + t3;
    var t1 := [At(0, AcquireSettles(true))] + t2;
    RunCons(s0, Start(false), t1);
    var s1 := Next(s0, Start(false));
    RunCons(s1, At(0, AcquireSettles(true)), t2);
    var s2 := Next(s1, At(0, AcquireSettles(true)));
    RunCons(s2, At(0, EnsureDomainSettles(true)), t3);
    var s3 := Next(s2, At(0, EnsureDomainSettles(true)));
    RunCons(s3, At(0, StartScreencastSettles(true, true)), t4);
    var s4 := Next(s3, At(0, StartScreencastSettles(true, true)));
    RunCons(s4, At(0, SeedTimerFires), t5);
    var s5 := Next(s4, At(0, SeedTimerFires));
    RunCons(s5, e5, []);
  }
}
