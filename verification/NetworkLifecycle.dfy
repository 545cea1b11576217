/**
 The capture lifecycle of the page network engine: `start`, `stop`, `dispose` and the
 transport-close handler, cut at every `await`.

 One event is one uninterrupted run of JavaScript between two suspensions. The lifecycle object
 made for epoch k + 1 is kept at position k of `lives`; `current` is the engine's `lifecycle` field.
 The environment chooses every event, so it decides when and how each CDP call settles.
 */
module NetworkLifecycle {
  import opened Prelude

  datatype Phase = Starting | Active | Stopping | Inactive

  /** Where the `start` call that owns a lifecycle is suspended. */
  datatype StartPoint =
    | AtAcquire         // waiting for cdp.acquire
    | AtEnsureDomain    // waiting for cdp.ensureDomain
    | AtCleanupRelease  // start failed, waiting for cdp.release
    | Settled           // startPromise settled, `finally` of start still to run
    | Returned

  datatype Lifecycle = Lifecycle(
    phase: Phase,
    acquired: bool,
    transportClosed: bool,
    stopRequested: bool,
    listening: bool,
    aborted: bool,
    point: StartPoint)

  /** What happens to one capture owner, in order. */
  datatype OwnerEvent =
    | AcquireCalled(owner: nat)
    | AcquireSucceeded(owner: nat)
    | ReleaseCalled(owner: nat)
    | CloseRecorded(owner: nat)

  datatype StartCall = StartCall(validOptions: bool, aborted: bool)

  datatype StopCall = StopCall(releasing: bool)

  datatype Engine = Engine(
    lives: seq<Lifecycle>,
    current: Option<nat>,
    startPromise: Option<nat>,
    stopPromise: Option<StopCall>,
    stopWaiters: seq<StartCall>,   // start calls awaiting stopPromise, in registration order
    parkedStops: multiset<nat>,    // stop calls awaiting the start of a lifecycle
    disposed: bool,
    transportClosed: bool,
    log: seq<OwnerEvent>)

  const IDLE_ENGINE := Engine([], None, None, None, [], multiset{}, false, false, [])

  datatype Event =
    | Start(call: StartCall)
    | AbortRunning(k: nat)             // the signal of a running start fires
    | AbortWaiting(w: nat)             // the signal of a start that awaits stopPromise fires
    | AcquireSettles(k: nat, ok: bool)
    | EnsureDomainSettles(k: nat, ok: bool)
    | CleanupReleaseSettles(k: nat)
    | StartReturns(k: nat)
    | Stop
    | ParkedStopResumes(k: nat)
    | StopSettles(ok: bool)
    | Dispose
    | TransportCloses(k: nat)          // the close listener of lifecycle k is called

  // ----- the synchronous pieces of the source -----

  ghost predicate WellIndexed(s: Engine) {
    && (s.current.Some? ==> s.current.value < |s.lives|)
    && (s.startPromise.Some? ==> s.startPromise.value < |s.lives|)
  }

  /** assertStartCanContinue */
  predicate CanContinue(s: Engine, k: nat)
    requires k < |s.lives|
  {
    var l := s.lives[k];
    && !l.aborted
    && !l.stopRequested && !s.disposed
    && !l.transportClosed && !s.transportClosed
    && s.current == Some(k)
  }

  predicate NeedsRelease(l: Lifecycle) {
    l.acquired && !l.transportClosed
  }

  function ReleaseEvents(l: Lifecycle, k: nat): seq<OwnerEvent> {
    if NeedsRelease(l) then [ReleaseCalled(k)] else []
  }

  /** cleanupLifecycle(lifecycle, true), up to and including the call of cdp.release. */
  function Cleanup(s: Engine, k: nat): Engine
    requires k < |s.lives|
  {
    var l := s.lives[k];
    var cleaned := l.(listening := false, phase := Inactive, acquired := l.acquired && !NeedsRelease(l));
    s.(lives := s.lives[k := cleaned],
       current := if s.current == Some(k) then None else s.current,
       log := s.log + ReleaseEvents(l, k))
  }

  /** The catch block of startLifecycle. */
  function FailStart(s: Engine, k: nat): Engine
    requires k < |s.lives|
  {
    var next := if NeedsRelease(s.lives[k]) then AtCleanupRelease else Settled;
    Cleanup(s.(lives := s.lives[k := s.lives[k].(point := next)]), k)
  }

  /** start, from the option checks after the await of stopPromise to the call of cdp.acquire. */
  function Begin(s: Engine, call: StartCall): Engine {
    if !call.validOptions then s
    else
      var k := |s.lives|;
      s.(lives := s.lives + [Lifecycle(Starting, false, false, false, false, call.aborted, AtAcquire)],
         current := Some(k),
         startPromise := Some(k),
         log := s.log + [AcquireCalled(k)])
  }

  function BeginAll(s: Engine, calls: seq<StartCall>): Engine
    decreases |calls|
  {
    if calls == [] then s else BeginAll(Begin(s, calls[0]), calls[1..])
  }

  function StartCalled(s: Engine, call: StartCall): Engine
    requires WellIndexed(s)
  {
    if s.disposed || s.transportClosed || call.aborted then s
    else if s.current.Some? && s.lives[s.current.value].phase == Active then s
    else if s.startPromise.Some? then s
    else if s.stopPromise.Some? then s.(stopWaiters := s.stopWaiters + [call])
    else Begin(s, call)
  }

  /** stop, after its optional await of startPromise. */
  function StopTail(s: Engine): Engine
    requires WellIndexed(s)
  {
    if s.current.None? || s.lives[s.current.value].phase == Inactive || s.stopPromise.Some? then s
    else
      var k := s.current.value;
      var stopping := s.(lives := s.lives[k := s.lives[k].(phase := Stopping)]);
      Cleanup(stopping, k).(stopPromise := Some(StopCall(NeedsRelease(s.lives[k]))))
  }

  function StopCalled(s: Engine): Engine
    requires WellIndexed(s)
  {
    if s.startPromise.Some? && s.current.Some? && s.lives[s.current.value].phase == Starting then
      var k := s.current.value;
      s.(lives := s.lives[k := s.lives[k].(stopRequested := true)],
         parkedStops := s.parkedStops + multiset{s.startPromise.value})
    else StopTail(s)
  }

  /** handleTransportClose */
  function CloseHandled(s: Engine, k: nat): Engine
    requires k < |s.lives|
  {
    var l := s.lives[k];
    if s.current != Some(k) || !(l.phase == Starting || l.phase == Active) || l.transportClosed then s
    else
      s.(lives := s.lives[k := l.(transportClosed := true, acquired := false, phase := Inactive, listening := false)],
         transportClosed := true,
         current := None,
         log := s.log + [CloseRecorded(k)])
  }

  // ----- the machine -----

  predicate Enabled(s: Engine, e: Event) {
    match e
    case Start(_) => true
    case AbortRunning(k) => k < |s.lives|
    case AbortWaiting(w) => w < |s.stopWaiters|
    case AcquireSettles(k, _) => k < |s.lives| && s.lives[k].point == AtAcquire
    case EnsureDomainSettles(k, _) => k < |s.lives| && s.lives[k].point == AtEnsureDomain
    case CleanupReleaseSettles(k) => k < |s.lives| && s.lives[k].point == AtCleanupRelease
    case StartReturns(k) => k < |s.lives| && s.lives[k].point == Settled
    case Stop => true
    case ParkedStopResumes(k) => k in s.parkedStops && k < |s.lives| && s.lives[k].point in {Settled, Returned}
    case StopSettles(ok) => s.stopPromise.Some? && (ok || s.stopPromise.value.releasing)
    case Dispose => true
    case TransportCloses(k) => k < |s.lives| && s.lives[k].listening
  }

  function Next(s: Engine, e: Event): Engine
    requires WellIndexed(s)
    requires Enabled(s, e)
  {
    match e
    case Start(call) => StartCalled(s, call)
    case AbortRunning(k) => s.(lives := s.lives[k := s.lives[k].(aborted := true)])
    case AbortWaiting(w) => s.(stopWaiters := s.stopWaiters[w := s.stopWaiters[w].(aborted := true)])
    case AcquireSettles(k, ok) =>
      if !ok then FailStart(s, k)
      else
        var granted := s.(lives := s.lives[k := s.lives[k].(acquired := true)], log := s.log + [AcquireSucceeded(k)]);
        if !CanContinue(granted, k) then FailStart(granted, k)
        else granted.(lives := granted.lives[k := granted.lives[k].(listening := true, point := AtEnsureDomain)])
    case EnsureDomainSettles(k, ok) =>
      if ok && CanContinue(s, k) then s.(lives := s.lives[k := s.lives[k].(phase := Active, point := Settled)])
      else FailStart(s, k)
    case CleanupReleaseSettles(k) => s.(lives := s.lives[k := s.lives[k].(point := Settled)])
    case StartReturns(k) => s.(lives := s.lives[k := s.lives[k].(point := Returned)], startPromise := None)
    case Stop => StopCalled(s)
    case ParkedStopResumes(k) => StopTail(s.(parkedStops := s.parkedStops - multiset{k}))
    case StopSettles(ok) =>
      // All reactions to one settled promise run before any job queued later: the stop call clears
      // stopPromise, then every waiting start goes on, in registration order.
      var settled := s.(stopPromise := None, stopWaiters := []);
      if ok then BeginAll(settled, s.stopWaiters) else settled
    case Dispose => if s.disposed then s else StopCalled(s.(disposed := true))
    case TransportCloses(k) => CloseHandled(s, k)
  }

  /** A run: events that are not enabled in the state they meet are skipped. */
  ghost function Run(s: Engine, events: seq<Event>): Engine
    requires Inv(s)
    ensures Inv(Run(s, events))
    decreases |events|
  {
    if events == [] then s
    else if !Enabled(s, events[0]) then Run(s, events[1..])
    else
      StepKeepsInv(s, events[0]);
      Run(Next(s, events[0]), events[1..])
  }

  // ----- the invariant -----

  /** What may be recorded next: nothing twice, no grant without a call, no release without a grant or after a close. */
  ghost predicate MayRecord(log: seq<OwnerEvent>, e: OwnerEvent) {
    && e !in log
    && (e.AcquireSucceeded? ==> AcquireCalled(e.owner) in log)
    && (e.ReleaseCalled? ==> AcquireSucceeded(e.owner) in log && CloseRecorded(e.owner) !in log)
  }

  ghost predicate LifeInv(s: Engine, k: nat)
    requires k < |s.lives|
  {
    var l := s.lives[k];
    && AcquireCalled(k) in s.log
    && (l.phase == Active ==>
          s.current == Some(k) && l.acquired && !l.stopRequested && l.point in {Settled, Returned})
    && (l.phase == Starting ==> l.point in {AtAcquire, AtEnsureDomain})
    && (l.phase == Starting && l.point == AtEnsureDomain ==> l.acquired)
    && l.phase != Stopping
    && (l.point == AtAcquire ==> !l.acquired && !l.listening && !l.transportClosed && AcquireSucceeded(k) !in s.log)
    && (l.acquired ==> ReleaseCalled(k) !in s.log && !l.transportClosed && l.phase in {Starting, Active})
    && (AcquireSucceeded(k) in s.log && !l.acquired ==> ReleaseCalled(k) in s.log || CloseRecorded(k) in s.log)
    && (l.acquired ==> AcquireSucceeded(k) in s.log)
    && (ReleaseCalled(k) in s.log ==> AcquireSucceeded(k) in s.log)
    && (CloseRecorded(k) in s.log <==> l.transportClosed)
  }

  ghost predicate Inv(s: Engine) {
    && WellIndexed(s)
    && (s.current.Some? ==> s.current.value + 1 == |s.lives| && s.lives[s.current.value].phase in {Starting, Active})
    && (s.startPromise.Some? ==> s.startPromise.value + 1 == |s.lives|)
    && (s.stopPromise.Some? ==> s.current.None?)
    && (s.disposed && s.current.Some? ==> s.lives[s.current.value].phase == Starting)
    && (forall k :: 0 <= k < |s.lives| ==> LifeInv(s, k))
    && (forall e :: e in s.log ==> e.owner < |s.lives|)
    && SoundLog(MayRecord, s.log)
  }

  lemma RecordRelease(s: Engine, k: nat)
    requires Inv(s) && k < |s.lives|
    ensures SoundLog(MayRecord, s.log + ReleaseEvents(s.lives[k], k))
  {
    if NeedsRelease(s.lives[k]) {
      assert LifeInv(s, k);
      Record(MayRecord, s.log, ReleaseCalled(k));
    } else {
      assert s.log + [] == s.log;
    }
  }

  /** A step that touches no lifecycle. */
  lemma ScalarsKeepInv(s: Engine, t: Engine)
    requires Inv(s)
    requires t.lives == s.lives && t.log == s.log && t.current == s.current && t.startPromise == s.startPromise
    requires t.stopPromise.None? || t.stopPromise == s.stopPromise
    requires t.disposed && t.current.Some? ==> t.lives[t.current.value].phase == Starting
    ensures Inv(t)
  {
    forall j | 0 <= j < |t.lives| ensures LifeInv(t, j) { assert LifeInv(s, j); }
  }

  /** A step that touches lifecycle k only, and records events of its owner only. */
  lemma UpdateKeepsInv(s: Engine, t: Engine, k: nat, more: seq<OwnerEvent>)
    requires Inv(s) && WellIndexed(t) && k < |s.lives| == |t.lives|
    requires forall j :: 0 <= j < |s.lives| && j != k ==> t.lives[j] == s.lives[j]
    requires t.log == s.log + more && SoundLog(MayRecord, t.log)
    requires forall e :: e in more ==> e.owner == k
    requires t.current == s.current || (s.current == Some(k) && t.current == None)
    requires t.startPromise == s.startPromise || t.startPromise == None
    requires t.stopPromise.Some? ==> t.current.None?
    requires t.current == Some(k) ==> t.lives[k].phase in {Starting, Active}
    requires t.disposed && t.current.Some? ==> t.lives[t.current.value].phase == Starting
    requires LifeInv(t, k)
    ensures Inv(t)
  {
    forall j | 0 <= j < |t.lives| ensures LifeInv(t, j) {
      assert LifeInv(s, j);
      if j != k {
        assert t.lives[j] == s.lives[j];
        assert forall e: OwnerEvent :: e.owner == j ==> (e in t.log <==> e in s.log);
      }
    }
  }

  lemma FailStartKeepsInv(s: Engine, k: nat)
    requires Inv(s) && k < |s.lives|
    requires s.lives[k].point in {AtAcquire, AtEnsureDomain}
    ensures Inv(FailStart(s, k))
  {
    assert LifeInv(s, k);
    RecordRelease(s, k);
    UpdateKeepsInv(s, FailStart(s, k), k, ReleaseEvents(s.lives[k], k));
  }

  lemma BeginKeepsInv(s: Engine, call: StartCall)
    requires Inv(s) && s.stopPromise.None?
    requires s.current.Some? ==> s.lives[s.current.value].phase == Starting
    ensures Inv(Begin(s, call)) && Begin(s, call).stopPromise.None?
    ensures var t := Begin(s, call); t.current.Some? ==> t.lives[t.current.value].phase == Starting
  {
    if call.validOptions {
      var t := Begin(s, call);
      Record(MayRecord, s.log, AcquireCalled(|s.lives|));
      forall j | 0 <= j < |t.lives| ensures LifeInv(t, j) {
        if j < |s.lives| {
          assert LifeInv(s, j);
          assert t.lives[j] == s.lives[j];
          assert forall e: OwnerEvent :: e.owner == j ==> (e in t.log <==> e in s.log);
        }
      }
    }
  }

  lemma {:induction false} BeginAllKeepsInv(s: Engine, calls: seq<StartCall>)
    requires Inv(s) && s.stopPromise.None?
    requires s.current.Some? ==> s.lives[s.current.value].phase == Starting
    ensures Inv(BeginAll(s, calls))
    decreases |calls|
  {
    if calls != [] {
      BeginKeepsInv(s, calls[0]);
      BeginAllKeepsInv(Begin(s, calls[0]), calls[1..]);
    }
  }

  lemma CleanupKeepsInv(s: Engine, k: nat, stop: Option<StopCall>, disposed: bool)
    requires Inv(s) && s.current == Some(k)
    ensures Inv(Cleanup(s, k).(stopPromise := stop, disposed := disposed))
  {
    assert LifeInv(s, k);
    RecordRelease(s, k);
    UpdateKeepsInv(s, Cleanup(s, k).(stopPromise := stop, disposed := disposed), k, ReleaseEvents(s.lives[k], k));
  }

  /** stop may find the engine just disposed, so `disposed` is set aside in what it assumes. */
  lemma StopTailKeepsInv(s: Engine, disposed: bool)
    requires Inv(s)
    ensures Inv(StopTail(s).(disposed := disposed))
  {
    if s.current.Some? && s.stopPromise.None? {
      var k := s.current.value;
      var stop := Some(StopCall(NeedsRelease(s.lives[k])));
      CleanupKeepsInv(s, k, stop, disposed);
      assert StopTail(s).lives == Cleanup(s, k).lives;
    } else {
      ScalarsKeepInv(s, StopTail(s).(disposed := disposed));
    }
  }

  lemma StopCalledKeepsInv(s: Engine, disposed: bool)
    requires Inv(s)
    ensures Inv(StopCalled(s).(disposed := disposed))
  {
    if s.startPromise.Some? && s.current.Some? && s.lives[s.current.value].phase == Starting {
      assert LifeInv(s, s.current.value);
      UpdateKeepsInv(s, StopCalled(s).(disposed := disposed), s.current.value, []);
    } else {
      StopTailKeepsInv(s, disposed);
    }
  }

  lemma CloseKeepsInv(s: Engine, k: nat)
    requires Inv(s) && k < |s.lives| && s.lives[k].listening
    ensures Inv(CloseHandled(s, k))
  {
    var t := CloseHandled(s, k);
    if t != s {
      assert LifeInv(s, k);
      Record(MayRecord, s.log, CloseRecorded(k));
      UpdateKeepsInv(s, t, k, [CloseRecorded(k)]);
    }
  }

  /** The state in which the acquire has come back and the start waits for the Network domain. */
  function Granted(s: Engine, k: nat): Engine
    requires k < |s.lives|
  {
    s.(lives :=
         s.lives[k := s.lives[k].(acquired := true, phase := Starting, listening := true, point := AtEnsureDomain)],
       log := s.log + [AcquireSucceeded(k)])
  }

  lemma GrantedKeepsInv(s: Engine, k: nat)
    requires Inv(s) && Enabled(s, AcquireSettles(k, true))
    ensures Inv(Granted(s, k))
  {
    assert LifeInv(s, k);
    Record(MayRecord, s.log, AcquireSucceeded(k));
    UpdateKeepsInv(s, Granted(s, k), k, [AcquireSucceeded(k)]);
  }

  /** Cleaning up forgets where the start was and whether it was listening. */
  lemma FailStartForgets(a: Engine, b: Engine, k: nat)
    requires k < |a.lives| == |b.lives|
    requires a == b.(lives := a.lives)
    requires forall j :: 0 <= j < |a.lives| && j != k ==> a.lives[j] == b.lives[j]
    requires a.lives[k] == b.lives[k].(phase := a.lives[k].phase, listening := a.lives[k].listening,
      point := a.lives[k].point)
    ensures FailStart(a, k) == FailStart(b, k)
  {
    assert FailStart(a, k).lives == FailStart(b, k).lives;
  }

  lemma AcquireKeepsInv(s: Engine, k: nat, ok: bool)
    requires Inv(s) && Enabled(s, AcquireSettles(k, ok))
    ensures Inv(Next(s, AcquireSettles(k, ok)))
  {
    var granted := s.(lives := s.lives[k := s.lives[k].(acquired := true)], log := s.log + [AcquireSucceeded(k)]);
    if !ok {
      FailStartKeepsInv(s, k);
    } else {
      GrantedKeepsInv(s, k);
      if CanContinue(granted, k) {
        assert LifeInv(s, k);
        assert Next(s, AcquireSettles(k, ok)).lives == Granted(s, k).lives;
      } else {
        // A grant nobody wants any more is released in the same step.
        FailStartKeepsInv(Granted(s, k), k);
        FailStartForgets(granted, Granted(s, k), k);
      }
    }
  }

  lemma EnsureDomainKeepsInv(s: Engine, k: nat, ok: bool)
    requires Inv(s) && Enabled(s, EnsureDomainSettles(k, ok))
    ensures Inv(Next(s, EnsureDomainSettles(k, ok)))
  {
    if ok && CanContinue(s, k) {
      assert LifeInv(s, k);
      UpdateKeepsInv(s, Next(s, EnsureDomainSettles(k, ok)), k, []);
    } else {
      FailStartKeepsInv(s, k);
    }
  }

  lemma StartKeepsInv(s: Engine, call: StartCall)
    requires Inv(s)
    ensures Inv(StartCalled(s, call))
  {
    if StartCalled(s, call) == Begin(s, call) && s.stopPromise.None? &&
       (s.current.Some? ==> s.lives[s.current.value].phase == Starting) {
      BeginKeepsInv(s, call);
    } else {
      ScalarsKeepInv(s, StartCalled(s, call));
    }
  }

  lemma StopSettlesKeepsInv(s: Engine, ok: bool)
    requires Inv(s) && Enabled(s, StopSettles(ok))
    ensures Inv(Next(s, StopSettles(ok)))
  {
    var settled := s.(stopPromise := None, stopWaiters := []);
    ScalarsKeepInv(s, settled);
    BeginAllKeepsInv(settled, s.stopWaiters);
  }

  lemma BookkeepingKeepsInv(s: Engine, e: Event)
    requires Inv(s) && Enabled(s, e)
    requires e.AbortRunning? || e.CleanupReleaseSettles? || e.StartReturns?
    ensures Inv(Next(s, e))
  {
    assert LifeInv(s, e.k);
    UpdateKeepsInv(s, Next(s, e), e.k, []);
  }

  lemma ParkedStopKeepsInv(s: Engine, k: nat)
    requires Inv(s) && Enabled(s, ParkedStopResumes(k))
    ensures Inv(Next(s, ParkedStopResumes(k)))
  {
    var u := s.(parkedStops := s.parkedStops - multiset{k});
    ScalarsKeepInv(s, u);
    StopTailKeepsInv(u, u.disposed);
  }

  lemma StepKeepsInv(s: Engine, e: Event)
    requires Inv(s) && Enabled(s, e)
    ensures Inv(Next(s, e))
  {
    match e
    case Start(call) => StartKeepsInv(s, call);
    case AbortRunning(_) => BookkeepingKeepsInv(s, e);
    case AbortWaiting(_) => ScalarsKeepInv(s, Next(s, e));
    case AcquireSettles(k, ok) => AcquireKeepsInv(s, k, ok);
    case EnsureDomainSettles(k, ok) => EnsureDomainKeepsInv(s, k, ok);
    case CleanupReleaseSettles(_) => BookkeepingKeepsInv(s, e);
    case StartReturns(_) => BookkeepingKeepsInv(s, e);
    case Stop => StopCalledKeepsInv(s, s.disposed);
    case ParkedStopResumes(k) => ParkedStopKeepsInv(s, k);
    case StopSettles(ok) => StopSettlesKeepsInv(s, ok);
    case Dispose => if !s.disposed { StopCalledKeepsInv(s, true); }
    case TransportCloses(k) => CloseKeepsInv(s, k);
  }

  // ----- what every run guarantees -----

  lemma IdleEngineKeepsInv()
    ensures Inv(IDLE_ENGINE)
  {
  }

  /**
   Over every run: an owner is acquired at most once and released at most once, is released only
   after its acquire succeeded, and is never released after its close was recorded.
   */
  lemma OwnerSafety(events: seq<Event>)
    ensures Inv(IDLE_ENGINE)
    ensures var log := Run(IDLE_ENGINE, events).log;
      && Distinct(log)
      && (forall i :: 0 <= i < |log| && log[i].AcquireSucceeded? ==>
            exists j :: 0 <= j < i && log[j] == AcquireCalled(log[i].owner))
      && (forall i :: 0 <= i < |log| && log[i].ReleaseCalled? ==>
            exists j :: 0 <= j < i && log[j] == AcquireSucceeded(log[i].owner))
      && (forall i, j :: 0 <= j < i < |log| && log[i].ReleaseCalled? ==> log[j] != CloseRecorded(log[i].owner))
  {
    IdleEngineKeepsInv();
    var log := Run(IDLE_ENGINE, events).log;
    forall i | 0 <= i < |log| ensures MayRecord(log[..i], log[i]) { SoundLogAt(MayRecord, log, i); }
    forall i, j | 0 <= j < i < |log| ensures log[j] != log[i] {
      assert MayRecord(log[..i], log[i]);
      assert log[..i][j] == log[j];
    }
    forall i, j | 0 <= j < i < |log| && log[i].ReleaseCalled? ensures log[j] != CloseRecorded(log[i].owner) {
      assert MayRecord(log[..i], log[i]);
      assert log[..i][j] == log[j];
    }
  }

  /** No CDP call of a start or of a stop is outstanding. */
  ghost predicate Quiet(s: Engine) {
    && s.stopPromise.None?
    && (forall k :: 0 <= k < |s.lives| ==> s.lives[k].point in {Settled, Returned})
  }

  ghost predicate Held(s: Engine, k: nat) {
    AcquireSucceeded(k) in s.log && ReleaseCalled(k) !in s.log
  }

  /** stats().active */
  predicate IsActive(s: Engine)
    requires WellIndexed(s)
  {
    s.current.Some? && s.lives[s.current.value].phase == Active
  }

  /**
   Over every run: once nothing is outstanding, an owner is held exactly when it belongs to the
   active capture, apart from owners whose transport closed; a disposed engine holds none.
   */
  lemma NoLeakWhenQuiet(events: seq<Event>, k: nat)
    ensures Inv(IDLE_ENGINE)
    ensures var s := Run(IDLE_ENGINE, events);
      && (Quiet(s) && CloseRecorded(k) !in s.log ==> (Held(s, k) <==> IsActive(s) && s.current == Some(k)))
      && (Quiet(s) && s.disposed ==> !IsActive(s))
  {
    IdleEngineKeepsInv();
    var s := Run(IDLE_ENGINE, events);
    if k < |s.lives| { assert LifeInv(s, k); }
    if s.current.Some? { assert LifeInv(s, s.current.value); }
  }

  /** Over every run: at most one capture is active, and a stop that met a starting capture always wins. */
  lemma OneActiveCapture(events: seq<Event>, j: nat, k: nat)
    ensures Inv(IDLE_ENGINE)
    ensures var s := Run(IDLE_ENGINE, events);
      && (j < |s.lives| && k < |s.lives| && s.lives[j].phase == s.lives[k].phase == Active ==> j == k)
      && (k < |s.lives| && s.lives[k].stopRequested ==> s.lives[k].phase != Active)
      && (IsActive(s) ==> !s.disposed)
  {
    IdleEngineKeepsInv();
    var s := Run(IDLE_ENGINE, events);
    if j < |s.lives| { assert LifeInv(s, j); }
    if k < |s.lives| { assert LifeInv(s, k); }
  }

  /** Undisturbed, a start leads to an active capture that holds its owner. */
  lemma UndisturbedStart(s: Engine)
    requires Inv(s) && s.current.None? && s.startPromise.None? && s.stopPromise.None? && !s.disposed
      && !s.transportClosed
    ensures var k := |s.lives|;
      var begun := Next(s, Start(StartCall(true, false)));
      && Enabled(begun, AcquireSettles(k, true))
      && var granted := Next(begun, AcquireSettles(k, true));
      && Enabled(granted, EnsureDomainSettles(k, true))
      && var active := Next(granted, EnsureDomainSettles(k, true));
      IsActive(active) && active.current == Some(k) && Held(active, k)
  {
    assert ReleaseCalled(|s.lives|) !in s.log;
  }

  // ----- what ends a capture ends it for good -----

  /** Nothing can make capture k active any more. */
  ghost predicate Doomed(s: Engine, k: nat) {
    && k < |s.lives| && s.lives[k].phase != Active
    && (s.lives[k].stopRequested || s.lives[k].aborted || s.disposed || s.current != Some(k))
  }

  lemma {:induction false} BeginAllKeepsDoomed(s: Engine, calls: seq<StartCall>, k: nat)
    requires Doomed(s, k)
    ensures Doomed(BeginAll(s, calls), k)
    decreases |calls|
  {
    if calls != [] { BeginAllKeepsDoomed(Begin(s, calls[0]), calls[1..], k); }
  }

  lemma DoomedByStart(s: Engine, e: Event, k: nat)
    requires Inv(s) && Enabled(s, e) && Doomed(s, k) && (e.AcquireSettles? || e.EnsureDomainSettles?)
    ensures Doomed(Next(s, e), k)
  {}

  lemma DoomedByStop(s: Engine, e: Event, k: nat)
    requires Inv(s) && Enabled(s, e) && Doomed(s, k) && (e.Stop? || e.Dispose? || e.ParkedStopResumes?)
    ensures Doomed(Next(s, e), k)
  {}

  lemma DoomedStays(s: Engine, e: Event, k: nat)
    requires Inv(s) && Enabled(s, e) && Doomed(s, k)
    ensures Doomed(Next(s, e), k)
  {
    if e.AcquireSettles? || e.EnsureDomainSettles? {
      DoomedByStart(s, e, k);
    } else if e.Stop? || e.Dispose? || e.ParkedStopResumes? {
      DoomedByStop(s, e, k);
    } else if e.StopSettles? && e.ok {
      BeginAllKeepsDoomed(s.(stopPromise := None, stopWaiters := []), s.stopWaiters, k);
    }
  }

  lemma {:induction false} DoomedNeverActive(s: Engine, events: seq<Event>, k: nat)
    requires Inv(s) && Doomed(s, k)
    ensures Doomed(Run(s, events), k)
    decreases |events|
  {
    if events != [] {
      if Enabled(s, events[0]) {
        StepKeepsInv(s, events[0]);
        DoomedStays(s, events[0], k);
        DoomedNeverActive(Next(s, events[0]), events[1..], k);
      } else {
        DoomedNeverActive(s, events[1..], k);
      }
    }
  }

  lemma HeldWhenQuiet(s: Engine, k: nat)
    requires Inv(s) && Quiet(s) && CloseRecorded(k) !in s.log
    ensures Held(s, k) <==> IsActive(s) && s.current == Some(k)
  {
    if k < |s.lives| { assert LifeInv(s, k); }
  }

  lemma DoomedIsReleased(s: Engine, events: seq<Event>, k: nat)
    requires Inv(s) && Doomed(s, k)
    ensures NeverHeldAgain(s, events, k)
  {
    DoomedNeverActive(s, events, k);
    var t := Run(s, events);
    if Quiet(t) && CloseRecorded(k) !in t.log { HeldWhenQuiet(t, k); }
  }

  /** At the end of this run capture k is not active, and its owner is not held once everything has settled. */
  ghost predicate NeverHeldAgain(s: Engine, events: seq<Event>, k: nat)
    requires Inv(s)
  {
    var t := Run(s, events);
    && k < |t.lives| && t.lives[k].phase != Active
    && (Quiet(t) && CloseRecorded(k) !in t.log ==> !Held(t, k))
  }

  /**
   A stop, one that waited for an earlier start too, or a dispose ends the current capture, starting or active, an
   abort of its signal one that is starting, and a close of its transport one that listens: whatever happens
   afterwards it is never active, and its owner is not held once everything has settled.
   */
  lemma EndedForGood(s: Engine, e: Event, events: seq<Event>, k: nat)
    requires Inv(s) && Enabled(s, e) && s.current == Some(k)
    requires match e
      case Stop => true
      case Dispose => true
      case ParkedStopResumes(_) => true
      case AbortRunning(j) => j == k && s.lives[k].phase == Starting
      case TransportCloses(j) => j == k
      case _ => false
    ensures Inv(Next(s, e)) && NeverHeldAgain(Next(s, e), events, k)
  {
    StepKeepsInv(s, e);
    assert LifeInv(s, k);
    DoomedIsReleased(Next(s, e), events, k);
  }

  /** A stop that meets a start suspends until that start has settled. */
  ghost predicate AwaitStart(s: Engine, k: nat, waiting: nat) {
    k < |s.lives| && (s.lives[k].point !in {Settled, Returned} ==> s.parkedStops[k] >= waiting)
  }

  lemma {:induction false} StopAwaitsStart(s: Engine, events: seq<Event>, k: nat, waiting: nat)
    requires Inv(s) && AwaitStart(s, k, waiting)
    ensures AwaitStart(Run(s, events), k, waiting)
    decreases |events|
  {
    if events != [] {
      if Enabled(s, events[0]) {
        StepKeepsInv(s, events[0]);
        StepKeepsWaiting(s, events[0], k, waiting);
        StopAwaitsStart(Next(s, events[0]), events[1..], k, waiting);
      } else {
        StopAwaitsStart(s, events[1..], k, waiting);
      }
    }
  }

  lemma {:induction false} BeginAllKeepsOthers(s: Engine, calls: seq<StartCall>, k: nat)
    requires k < |s.lives|
    ensures var t := BeginAll(s, calls);
      k < |t.lives| && t.lives[k] == s.lives[k] && t.parkedStops == s.parkedStops
    decreases |calls|
  {
    if calls != [] { BeginAllKeepsOthers(Begin(s, calls[0]), calls[1..], k); }
  }

  lemma StartKeepsWaiting(s: Engine, e: Event, k: nat, waiting: nat)
    requires Inv(s) && Enabled(s, e) && AwaitStart(s, k, waiting) && (e.AcquireSettles? || e.EnsureDomainSettles?)
    ensures AwaitStart(Next(s, e), k, waiting)
  {}

  lemma StopTailKeepsPoints(s: Engine, k: nat)
    requires WellIndexed(s) && k < |s.lives|
    ensures var t := StopTail(s);
      k < |t.lives| && t.lives[k].point == s.lives[k].point && t.parkedStops == s.parkedStops
  {
  }

  lemma StopKeepsWaiting(s: Engine, e: Event, k: nat, waiting: nat)
    requires Inv(s) && Enabled(s, e) && AwaitStart(s, k, waiting) && (e.Stop? || e.Dispose? || e.ParkedStopResumes?)
    ensures AwaitStart(Next(s, e), k, waiting)
  {
    if e.Stop? {
      StopTailKeepsPoints(s, k);
    } else if e.Dispose? {
      StopTailKeepsPoints(s.(disposed := true), k);
    } else {
      StopTailKeepsPoints(s.(parkedStops := s.parkedStops - multiset{e.k}), k);
    }
  }

  lemma StepKeepsWaiting(s: Engine, e: Event, k: nat, waiting: nat)
    requires Inv(s) && Enabled(s, e) && AwaitStart(s, k, waiting)
    ensures AwaitStart(Next(s, e), k, waiting)
  {
    if e.AcquireSettles? || e.EnsureDomainSettles? {
      StartKeepsWaiting(s, e, k, waiting);
    } else if e.Stop? || e.Dispose? || e.ParkedStopResumes? {
      StopKeepsWaiting(s, e, k, waiting);
    } else if e.StopSettles? && e.ok {
      BeginAllKeepsOthers(s.(stopPromise := None, stopWaiters := []), s.stopWaiters, k);
    }
  }

  /** A stop that meets a start releases nothing yet: in every run one more stop waits until the start settles. */
  lemma StopMeetsStart(s: Engine, events: seq<Event>, k: nat)
    requires Inv(s) && s.startPromise.Some? && s.current == Some(k) && s.lives[k].phase == Starting
    ensures Next(s, Stop).log == s.log && Next(s, Stop).current == Some(k)
    ensures Inv(Next(s, Stop))
    ensures var t := Run(Next(s, Stop), events);
      k < |t.lives| && (t.lives[k].point !in {Settled, Returned} ==> t.parkedStops[k] >= s.parkedStops[k] + 1)
  {
    StepKeepsInv(s, Stop);
    StopAwaitsStart(Next(s, Stop), events, k, s.parkedStops[k] + 1);
  }

  /** An active or starting capture refuses every start; so do a fired signal and options that are not valid. */
  lemma RefusedStart(s: Engine, call: StartCall)
    requires Inv(s) && (call.aborted || !call.validOptions || IsActive(s) || s.startPromise.Some?)
    ensures var t := Next(s, Start(call));
      t.lives == s.lives && t.log == s.log && t.current == s.current
  {
  }

  /** A disposed engine refuses every start. */
  lemma NoStartAfterDispose(s: Engine, call: StartCall)
    requires Inv(s)
    ensures Inv(Next(s, Dispose)) && Next(Next(s, Dispose), Start(call)) == Next(s, Dispose)
  {
    StepKeepsInv(s, Dispose);
  }

  /** A transport that closes is recorded and ends its capture; every later start is refused. */
  lemma NoStartAfterClose(s: Engine, k: nat, call: StartCall)
    requires Inv(s) && s.current == Some(k) && Enabled(s, TransportCloses(k))
    ensures var t := Next(s, TransportCloses(k));
      && t.current.None? && t.log == s.log + [CloseRecorded(k)]
      && Inv(t) && Next(t, Start(call)) == t
  {
    assert LifeInv(s, k);
    StepKeepsInv(s, TransportCloses(k));
  }

  lemma BeginOne(s: Engine, call: StartCall)
    ensures BeginAll(s, [call]) == Begin(s, call)
  {
    assert [call][1..] == [];
    assert BeginAll(Begin(s, call), []) == Begin(s, call);
  }

  /** A start called during a stop begins its own capture when the stop has settled. */
  lemma WaitingStartBegins(s: Engine)
    requires Inv(s) && s.stopPromise.Some? && s.stopWaiters == [] && s.startPromise.None?
    requires !s.disposed && !s.transportClosed
    ensures var k := |s.lives|;
      var waiting := Next(s, Start(StartCall(true, false)));
      && waiting.lives == s.lives && waiting.log == s.log
      && Enabled(waiting, StopSettles(true))
      && var begun := Next(waiting, StopSettles(true));
      begun.current == Some(k) && begun.log == s.log + [AcquireCalled(k)] && Enabled(begun, AcquireSettles(k, true))
  {
    var call := StartCall(true, false);
    var waiting := Next(s, Start(call));
    assert waiting.stopWaiters == [call];
    BeginOne(waiting.(stopPromise := None, stopWaiters := []), call);
    var begun := Next(waiting, StopSettles(true));
    assert begun.lives[|s.lives|].point == AtAcquire;
  }

  /** How many of these waiting starts begin a capture. */
  function Beginning(calls: seq<StartCall>): nat {
    if calls == [] then 0 else (if calls[0].validOptions then 1 else 0) + Beginning(calls[1..])
  }

  lemma {:induction false} WaiterBegins(s: Engine, calls: seq<StartCall>, w: nat)
    requires w < |calls| && calls[w].validOptions
    ensures var (k, t) := (|s.lives| + Beginning(calls[..w]), BeginAll(s, calls));
      k < |t.lives| && t.lives[k].phase == Starting && t.lives[k].aborted == calls[w].aborted
    decreases |calls|
  {
    if w == 0 {
      BeginAllKeepsOthers(Begin(s, calls[0]), calls[1..], |s.lives|);
    } else {
      WaiterBegins(Begin(s, calls[0]), calls[1..], w - 1);
      assert calls[..w][1..] == calls[1..][..w - 1];
    }
  }

  /** A start whose signal fires while it waits for a stop still takes its turn, but its capture is never active. */
  lemma AbortedWaitingStart(s: Engine, w: nat, events: seq<Event>)
    requires Inv(s) && s.stopPromise.Some? && w < |s.stopWaiters| && s.stopWaiters[w].validOptions
    ensures var k := |s.lives| + Beginning(s.stopWaiters[..w]);
      var aborted := Next(s, AbortWaiting(w));
      && Inv(aborted) && Enabled(aborted, StopSettles(true))
      && Inv(Next(aborted, StopSettles(true))) && k < |Next(aborted, StopSettles(true)).lives|
      && NeverHeldAgain(Next(aborted, StopSettles(true)), events, k)
  {
    StepKeepsInv(s, AbortWaiting(w));
    var aborted := Next(s, AbortWaiting(w));
    StepKeepsInv(aborted, StopSettles(true));
    WaiterBegins(aborted.(stopPromise := None, stopWaiters := []), aborted.stopWaiters, w);
    assert aborted.stopWaiters[..w] == s.stopWaiters[..w];
    DoomedIsReleased(Next(aborted, StopSettles(true)), events, |s.lives| + Beginning(s.stopWaiters[..w]));
  }

  /** Once its start has returned, an active capture can be stopped, and then the engine is ready for another start. */
  lemma ReadyAgain(s: Engine)
    requires Inv(s) && IsActive(s) && s.startPromise == s.current && s.lives[s.current.value].point == Settled
    requires s.stopWaiters == [] && !s.transportClosed
    ensures var k := s.current.value;
      && Enabled(s, StartReturns(k))
      && var stopped := Next(Next(s, StartReturns(k)), Stop);
      && s.lives[k].acquired && Enabled(stopped, StopSettles(true))
      && var end := Next(stopped, StopSettles(true));
      && end.current.None? && end.startPromise.None? && end.stopPromise.None? && !end.disposed && !end.transportClosed
      && end.lives == stopped.lives && end.log == s.log + [ReleaseCalled(k)]
  {
    assert LifeInv(s, s.current.value);
  }

  /** Stopping an active capture asks for the release of its owner, once, in the same step. */
  lemma StopReleases(s: Engine)
    requires Inv(s) && IsActive(s)
    ensures var (k, t) := (s.current.value, Next(s, Stop));
      t.current.None? && t.log == s.log + [ReleaseCalled(k)] && Held(s, k) && !Held(t, k)
  {
    assert LifeInv(s, s.current.value);
  }

  /**
   Why the order of jobs matters. `start` checks nothing again after awaiting stopPromise, so if two
   waiting starts could be resumed with other jobs between them, the second would push aside a
   capture that is already active, and its owner would stay held with nothing left to release it.
   */
  lemma SplitResumptionLeaks(s: Engine)
    requires Inv(s) && Quiet(s) && s.current.None? && !s.disposed && !s.transportClosed
    ensures var call := StartCall(true, false);
      var k := |s.lives|;
      var first := Begin(s, call);
      && Enabled(first, AcquireSettles(k, true))
      && var granted := Next(first, AcquireSettles(k, true));
      && Enabled(granted, EnsureDomainSettles(k, true))
      && var active := Next(granted, EnsureDomainSettles(k, true));
      && Enabled(active, StartReturns(k))
      && var second := Begin(Next(active, StartReturns(k)), call);
      && Enabled(second, AcquireSettles(k + 1, false))
      && var end := Next(second, AcquireSettles(k + 1, false));
      Quiet(end) && end.current.None? && Held(end, k) && CloseRecorded(k) !in end.log
  {
    var k := |s.lives|;
    assert ReleaseCalled(k) !in s.log && CloseRecorded(k) !in s.log;
  }
}
