/**
 Automatic bridge startup by any number of processes that share one configuration, one status
 endpoint and one lock file. Every process runs `ensureBridgeServerExclusive`; a step is one file
 operation, one probe sample, or the code between two of them.

 Probes are truthful about the moment they sample the endpoint, the endpoint stays healthy once it is,
 the lock file is created exclusively, and nobody but the process that created it removes it.
 Configuration resolution and the URL policy are abstract.
 */
module BridgeAutostart {
  import opened Prelude

  datatype Connection = Connection(
    canAutoStart: bool,
    urlSafe: bool,       // isBridgeUrlSafeForAutoStart(url)
    token: bool,         // a non-empty token is known
    persistable: bool)   // the URL comes from the file or the defaults

  predicate Permitted(c: Connection) { c.canAutoStart && c.urlSafe }

  datatype Outcome = Success(spawned: bool) | Failed

  /** Where a process is. A probe has a point before its sample is taken and one where it awaits the answer. */
  datatype Point =
    | FirstProbe(connection: Connection, sample: Option<bool>)
    | TryingLock
    | UndoingLock                                  // the lock file is there, but its process id could not be written
    | Waiting(left: nat, sample: Option<bool>)
    | Resolving
    | SecondProbe(connection: Connection, sample: Option<bool>)
    | ChoosingToken(connection: Connection)
    | ResolvingAgain
    | Planning(connection: Connection)
    | ThirdProbe(connection: Connection, sample: Option<bool>)
    | Spawning(connection: Connection)
    | Detaching(connection: Connection)
    | WritingPid(connection: Connection)
    | Polling(left: nat, sample: Option<bool>)
    | Releasing(outcome: Outcome)
    | Done(outcome: Outcome)

  /** What the processes do to the world, in order; Won is a process that spawned and found its bridge healthy. */
  datatype Effect =
    | LockCreated(process: nat)
    | LockReleased(process: nat)
    | ConfigWritten(process: nat, connection: Connection)
    | Spawned(process: nat, connection: Connection)
    | PidWritten(process: nat)
    | Won(process: nat)

  datatype World = World(
    processes: seq<Point>,
    delays: nat,        // the number of startup delays
    lockFile: bool,
    healthy: bool,
    log: seq<Effect>)

  datatype Event =
    | Begin(connection: Connection)                           // a process calls ensureBridgeServer
    | BecomesHealthy
    | Step(p: nat, ok: bool, resolved: Connection)            // ok and resolved are what its operation yields
    | LockOpenFails(p: nat)                                   // for another reason than an existing file
    | LockWriteFails(p: nat)                                  // after the file was created

  /** Between lock acquire and release. */
  predicate Holds(point: Point) {
    match point
    case FirstProbe(_, _) => false
    case TryingLock => false
    case UndoingLock => false
    case Waiting(_, _) => false
    case Done(_) => false
    case _ => true
  }

  function StepPoint(w: World, point: Point, ok: bool, resolved: Connection): Point {
    match point
    case FirstProbe(c, None) => FirstProbe(c, Some(w.healthy))
    case FirstProbe(c, Some(up)) =>
      if up then Done(Success(false)) else if !Permitted(c) || !ok then Done(Failed) else TryingLock
    case TryingLock => if w.lockFile then Waiting(w.delays, None) else Resolving
    case UndoingLock => Done(Failed)
    case Waiting(left, None) => if left == 0 then Done(Failed) else Waiting(left - 1, Some(w.healthy))
    case Waiting(left, Some(up)) =>
      if !up then Waiting(left, None) else if ok && resolved.token then Done(Success(false)) else Done(Failed)
    case Resolving => if !ok || !Permitted(resolved) then Releasing(Failed) else SecondProbe(resolved, None)
    case SecondProbe(c, None) => SecondProbe(c, Some(w.healthy))
    case SecondProbe(c, Some(up)) => if up then Releasing(Success(false)) else ChoosingToken(c)
    case ChoosingToken(c) =>
      if c.token then Planning(c)
      else if !ok then Releasing(Failed)
      else if c.persistable then ResolvingAgain
      else Planning(c.(token := true))
    case ResolvingAgain => if ok then Planning(resolved) else Releasing(Failed)
    case Planning(c) => if !Permitted(c) || !c.token then Releasing(Failed) else ThirdProbe(c, None)
    case ThirdProbe(c, None) => ThirdProbe(c, Some(w.healthy))
    case ThirdProbe(c, Some(up)) => if up then Releasing(Success(false)) else Spawning(c)
    case Spawning(c) => if ok then Detaching(c) else Releasing(Failed)
    case Detaching(c) => if ok then WritingPid(c) else Releasing(Failed)
    case WritingPid(_) => if ok then Polling(w.delays, None) else Releasing(Failed)
    case Polling(left, None) => if left == 0 then Releasing(Failed) else Polling(left - 1, Some(w.healthy))
    case Polling(left, Some(up)) => if up then Releasing(Success(true)) else Polling(left, None)
    case Releasing(outcome) => Done(outcome)
    case Done(outcome) => Done(outcome)
  }

  /** The effects of the same step. */
  function StepEffects(w: World, p: nat, point: Point, ok: bool): seq<Effect> {
    match point
    case TryingLock => if w.lockFile then [] else [LockCreated(p)]
    case ChoosingToken(c) => if !c.token && ok && c.persistable then [ConfigWritten(p, c)] else []
    case Spawning(c) => if ok then [Spawned(p, c)] else []
    case WritingPid(_) => if ok then [PidWritten(p)] else []
    case Polling(_, Some(up)) => if up then [Won(p)] else []
    case Releasing(_) => [LockReleased(p)]
    case _ => []
  }

  predicate Enabled(w: World, e: Event) {
    match e
    case Begin(_) => true
    case BecomesHealthy => true
    case Step(p, _, _) => p < |w.processes|
    case LockOpenFails(p) => p < |w.processes| && w.processes[p] == TryingLock
    case LockWriteFails(p) => p < |w.processes| && w.processes[p] == TryingLock && !w.lockFile
  }

  /** The lock file after a step: made by a successful acquire, removed by a successful unlink. */
  function StepLockFile(point: Point, lockFile: bool, ok: bool): bool {
    if point == TryingLock then true
    else if (point.Releasing? || point == UndoingLock) && ok then false
    else lockFile
  }

  function Next(w: World, e: Event): World
    requires Enabled(w, e)
  {
    match e
    case Begin(c) => w.(processes := w.processes + [FirstProbe(c, None)])
    case BecomesHealthy => w.(healthy := true)
    case LockOpenFails(p) => w.(processes := w.processes[p := Done(Failed)])
    case LockWriteFails(p) => w.(processes := w.processes[p := UndoingLock], lockFile := true)
    case Step(p, ok, resolved) =>
      var point := w.processes[p];
      w.(processes := w.processes[p := StepPoint(w, point, ok, resolved)],
         lockFile := StepLockFile(point, w.lockFile, ok),
         log := w.log + StepEffects(w, p, point, ok))
  }

  // ----- how far a process is from its end -----

  /** A bound on the steps a process still has to take. */
  function Rank(point: Point, delays: nat): nat {
    var polling := 2 * delays + 2;
    match point
    case FirstProbe(_, sample) => polling + (if sample.None? then 15 else 14)
    case TryingLock => polling + 13
    case Resolving => polling + 12
    case SecondProbe(_, sample) => polling + (if sample.None? then 11 else 10)
    case ChoosingToken(_) => polling + 9
    case ResolvingAgain => polling + 8
    case Planning(_) => polling + 7
    case ThirdProbe(_, sample) => polling + (if sample.None? then 6 else 5)
    case Spawning(_) => polling + 4
    case Detaching(_) => polling + 3
    case WritingPid(_) => polling + 2
    case Polling(left, sample) => 2 * left + (if sample.None? then 2 else 3)
    case Waiting(left, sample) => 2 * left + (if sample.None? then 1 else 2)
    case UndoingLock => 1
    case Releasing(_) => 1
    case Done(_) => 0
  }

  /** Every step of its own brings a process closer to its end, whatever its operation yields. */
  lemma OwnStepDescends(w: World, point: Point, ok: bool, resolved: Connection)
    ensures !point.Done? ==> Rank(StepPoint(w, point, ok, resolved), w.delays) < Rank(point, w.delays)
    ensures point.Done? ==> StepPoint(w, point, ok, resolved) == point
  {
  }

  /** No process has more steps before it than the whole call takes, nor a holder than the lock takes. */
  predicate InTime(point: Point, delays: nat) {
    Rank(point, delays) <= 2 * delays + (if Holds(point) then 14 else 17)
  }

  // ----- what the log says about the present -----

  datatype Summary = Summary(
    holder: Option<nat>,     // created the lock and has not released it
    created: set<nat>,
    spawned: set<nat>,
    winner: Option<nat>)

  function After(m: Summary, e: Effect): Summary {
    match e
    case LockCreated(p) => m.(holder := Some(p), created := m.created + {p})
    case LockReleased(_) => m.(holder := None)
    case ConfigWritten(_, _) => m
    case Spawned(p, _) => m.(spawned := m.spawned + {p})
    case PidWritten(_) => m
    case Won(p) => m.(winner := Some(p))
  }

  function Summarise(log: seq<Effect>): Summary {
    if log == [] then Summary(None, {}, {}, None) else After(Summarise(log[..|log| - 1]), log[|log| - 1])
  }

  lemma SummariseOne(log: seq<Effect>, e: Effect)
    ensures Summarise(log + [e]) == After(Summarise(log), e)
  {
    assert (log + [e])[..|log|] == log;
  }

  /** What may happen next. */
  predicate MayFollow(m: Summary, e: Effect) {
    match e
    case LockCreated(p) => m.holder.None? && p !in m.created
    case LockReleased(p) => m.holder == Some(p)
    case ConfigWritten(p, c) => m.holder == Some(p) && Permitted(c)
    case Spawned(p, c) => m.holder == Some(p) && Permitted(c) && m.winner.None?
    case PidWritten(p) => m.holder == Some(p) && p in m.spawned
    case Won(p) => m.holder == Some(p) && p in m.spawned && m.winner.None?
  }

  predicate MayRecord(log: seq<Effect>, e: Effect) { MayFollow(Summarise(log), e) }

  // ----- the invariant -----

  /** Having sampled the endpoint unhealthy for the last time, on the way to or past the spawn. */
  predicate Committed(point: Point) {
    match point
    case ThirdProbe(_, sample) => sample == Some(false)
    case Spawning(_) => true
    case Detaching(_) => true
    case WritingPid(_) => true
    case Polling(_, _) => true
    case _ => false
  }

  predicate HasWon(point: Point) {
    point == Releasing(Success(true)) || point == Done(Success(true))
  }

  predicate PastSpawn(point: Point) {
    point.Detaching? || point.WritingPid? || point.Polling? || HasWon(point)
  }

  predicate BeforeLock(point: Point) { point.FirstProbe? || point == TryingLock }

  /** The connection a process works with inside the lock, once it has been checked. */
  predicate Vetted(point: Point) {
    match point
    case SecondProbe(c, _) => Permitted(c)
    case ChoosingToken(c) => Permitted(c)
    case ThirdProbe(c, _) => Permitted(c) && c.token
    case Spawning(c) => Permitted(c) && c.token
    case Detaching(c) => Permitted(c) && c.token
    case WritingPid(c) => Permitted(c) && c.token
    case _ => true
  }

  predicate SawHealth(point: Point) {
    match point
    case FirstProbe(_, sample) => sample == Some(true)
    case Waiting(_, sample) => sample == Some(true)
    case SecondProbe(_, sample) => sample == Some(true)
    case ThirdProbe(_, sample) => sample == Some(true)
    case Polling(_, sample) => sample == Some(true)
    case Releasing(outcome) => outcome.Success?
    case Done(outcome) => outcome.Success?
    case _ => false
  }

  /** How process p, the lock file, the endpoint and the log fit together. */
  predicate ProcessInv(point: Point, p: nat, lockFile: bool, healthy: bool, m: Summary) {
    && Vetted(point)
    && (SawHealth(point) ==> healthy)
    && (Holds(point) <==> m.holder == Some(p))
    && (point == UndoingLock ==> lockFile && m.holder.None?)
    && (HasWon(point) <==> m.winner == Some(p))
    && (Committed(point) ==> m.winner.None?)
    && (BeforeLock(point) ==> p !in m.created)
    && (PastSpawn(point) ==> p in m.spawned)
  }

  predicate AllFit(w: World, m: Summary) {
    forall p :: 0 <= p < |w.processes| ==> ProcessInv(w.processes[p], p, w.lockFile, w.healthy, m)
  }

  predicate OneUndoes(w: World) {
    forall p, q :: 0 <= p < q < |w.processes| && w.processes[p] == UndoingLock ==> w.processes[q] != UndoingLock
  }

  /** The summary speaks of processes there are, and of a lock file and an endpoint that are still there. */
  ghost predicate Grounded(m: Summary, size: nat, lockFile: bool, healthy: bool) {
    && (m.holder.Some? ==> m.holder.value < size && lockFile)
    && (m.winner.Some? ==> m.winner.value < size && healthy)
    && (forall p :: p in m.created || p in m.spawned ==> p < size)
  }

  predicate AllInTime(w: World) {
    forall p :: 0 <= p < |w.processes| ==> InTime(w.processes[p], w.delays)
  }

  ghost predicate Inv(w: World) {
    && SoundLog(MayRecord, w.log)
    && AllFit(w, Summarise(w.log))
    && OneUndoes(w)
    && Grounded(Summarise(w.log), |w.processes|, w.lockFile, w.healthy)
    && AllInTime(w)
  }

  /** The summary says the same about q after a step of another process. */
  predicate SameFor(q: nat, m: Summary, n: Summary) {
    && (m.holder == Some(q) <==> n.holder == Some(q))
    && (m.winner == Some(q) <==> n.winner == Some(q))
    && (q in m.created <==> q in n.created)
    && (q in m.spawned <==> q in n.spawned)
  }

  /** The step of one process, without the rest of the world. */
  lemma QuietStepKeepsProcess(w: World, point: Point, p: nat, ok: bool, resolved: Connection, m: Summary)
    requires ProcessInv(point, p, w.lockFile, w.healthy, m) && StepEffects(w, p, point, ok) == []
    requires w.healthy || m.winner.None?
    ensures ProcessInv(StepPoint(w, point, ok, resolved), p, StepLockFile(point, w.lockFile, ok), w.healthy, m)
  {
  }

  /** A step that records an effect records one that may follow, and leaves the process in order with it. */
  lemma EffectStepKeepsProcess(w: World, point: Point, p: nat, ok: bool, resolved: Connection, m: Summary)
    requires ProcessInv(point, p, w.lockFile, w.healthy, m) && StepEffects(w, p, point, ok) != []
    requires point == TryingLock ==> m.holder.None?
    ensures var e := StepEffects(w, p, point, ok)[0];
      && StepEffects(w, p, point, ok) == [e]
      && e.process == p
      && MayFollow(m, e)
      && ProcessInv(StepPoint(w, point, ok, resolved), p, StepLockFile(point, w.lockFile, ok), w.healthy, After(m, e))
  {
  }

  /** The summary after a step: one effect more, or none. */
  function NextSummary(m: Summary, effects: seq<Effect>): Summary {
    if effects == [] then m else After(m, effects[0])
  }

  lemma OwnStepKeepsProcess(w: World, p: nat, ok: bool, resolved: Connection)
    requires Inv(w) && p < |w.processes|
    ensures var (t, n) := (Next(w, Step(p, ok, resolved)),
                           NextSummary(Summarise(w.log), StepEffects(w, p, w.processes[p], ok)));
      && SoundLog(MayRecord, t.log) && Summarise(t.log) == n
      && ProcessInv(t.processes[p], p, t.lockFile, t.healthy, n)
  {
    var point, m := w.processes[p], Summarise(w.log);
    if StepEffects(w, p, point, ok) == [] {
      QuietStepKeepsProcess(w, point, p, ok, resolved, m);
      assert w.log + [] == w.log;
    } else {
      EffectStepKeepsProcess(w, point, p, ok, resolved, m);
      var e := StepEffects(w, p, point, ok)[0];
      SummariseOne(w.log, e);
      Record(MayRecord, w.log, e);
    }
  }

  /** What another process's step leaves to process q. */
  lemma OtherStepKeepsProcess(w: World, p: nat, ok: bool, q: nat)
    requires Inv(w) && p < |w.processes| && q < |w.processes| && p != q
    ensures var (point, m) := (w.processes[p], Summarise(w.log));
      ProcessInv(w.processes[q], q, StepLockFile(point, w.lockFile, ok), w.healthy,
        NextSummary(m, StepEffects(w, p, point, ok)))
  {
    var point, other, m := w.processes[p], w.processes[q], Summarise(w.log);
    var effects := StepEffects(w, p, point, ok);
    assert ProcessInv(point, p, w.lockFile, w.healthy, m) && ProcessInv(other, q, w.lockFile, w.healthy, m);
    assert other == UndoingLock ==> point != UndoingLock;
    if effects != [] {
      EffectStepKeepsProcess(w, point, p, ok, Connection(false, false, false, false), m);
      assert SameFor(q, m, After(m, effects[0]));
    }
  }

  lemma StepKeepsFit(w: World, p: nat, ok: bool, resolved: Connection)
    requires Inv(w) && p < |w.processes|
    ensures var t := Next(w, Step(p, ok, resolved));
      && SoundLog(MayRecord, t.log) && AllFit(t, Summarise(t.log))
      && Summarise(t.log) == NextSummary(Summarise(w.log), StepEffects(w, p, w.processes[p], ok))
  {
    var t := Next(w, Step(p, ok, resolved));
    OwnStepKeepsProcess(w, p, ok, resolved);
    forall q | 0 <= q < |t.processes| ensures ProcessInv(t.processes[q], q, t.lockFile, t.healthy, Summarise(t.log)) {
      if q != p { OtherStepKeepsProcess(w, p, ok, q); }
    }
  }

  lemma StepKeepsGrounded(w: World, point: Point, p: nat, ok: bool, m: Summary, size: nat)
    requires ProcessInv(point, p, w.lockFile, w.healthy, m) && Grounded(m, size, w.lockFile, w.healthy) && p < size
    ensures Grounded(NextSummary(m, StepEffects(w, p, point, ok)), size, StepLockFile(point, w.lockFile, ok), w.healthy)
  {
  }

  lemma StepUndoesNothing(w: World, p: nat, ok: bool, resolved: Connection)
    requires OneUndoes(w) && p < |w.processes|
    ensures OneUndoes(Next(w, Step(p, ok, resolved)))
  {
    assert StepPoint(w, w.processes[p], ok, resolved) != UndoingLock;
  }

  lemma StepKeepsTimes(w: World, p: nat, ok: bool, resolved: Connection)
    requires AllInTime(w) && p < |w.processes|
    ensures AllInTime(Next(w, Step(p, ok, resolved)))
  {
    OwnStepDescends(w, w.processes[p], ok, resolved);
  }

  lemma ProcessStepKeepsInv(w: World, p: nat, ok: bool, resolved: Connection)
    requires Inv(w) && p < |w.processes|
    ensures Inv(Next(w, Step(p, ok, resolved)))
  {
    StepKeepsFit(w, p, ok, resolved);
    StepUndoesNothing(w, p, ok, resolved);
    StepKeepsGrounded(w, w.processes[p], p, ok, Summarise(w.log), |w.processes|);
    StepKeepsTimes(w, p, ok, resolved);
  }

  /** Creating the file without becoming its holder: nobody else can get past it until it is removed again. */
  lemma WriteFailureKeepsInv(w: World, p: nat)
    requires Inv(w) && Enabled(w, LockWriteFails(p))
    ensures Inv(Next(w, LockWriteFails(p)))
  {
    var m := Summarise(w.log);
    forall q | 0 <= q < |w.processes| ensures w.processes[q] != UndoingLock {
      assert ProcessInv(w.processes[q], q, w.lockFile, w.healthy, m);
    }
  }

  lemma OpenFailureKeepsInv(w: World, p: nat)
    requires Inv(w) && Enabled(w, LockOpenFails(p))
    ensures Inv(Next(w, LockOpenFails(p)))
  {
    assert ProcessInv(w.processes[p], p, w.lockFile, w.healthy, Summarise(w.log));
  }

  lemma BeginKeepsInv(w: World, c: Connection)
    requires Inv(w)
    ensures Inv(Next(w, Begin(c)))
  {
    var t, m := Next(w, Begin(c)), Summarise(w.log);
    forall q | 0 <= q < |t.processes| ensures ProcessInv(t.processes[q], q, t.lockFile, t.healthy, m) {
      if q < |w.processes| { assert ProcessInv(w.processes[q], q, w.lockFile, w.healthy, m); }
    }
  }

  lemma StepKeepsInv(w: World, e: Event)
    requires Inv(w) && Enabled(w, e)
    ensures Inv(Next(w, e))
  {
    match e
    case Begin(c) => BeginKeepsInv(w, c);
    case BecomesHealthy =>
    case LockOpenFails(p) => OpenFailureKeepsInv(w, p);
    case LockWriteFails(p) => WriteFailureKeepsInv(w, p);
    case Step(p, ok, resolved) => ProcessStepKeepsInv(w, p, ok, resolved);
  }

  // ----- what every run guarantees -----

  function FreshWorld(delays: nat, lockFile: bool, healthy: bool): World {
    World([], delays, lockFile, healthy, [])
  }

  /** A run: events that are not enabled in the state they meet are skipped. */
  function Run(w: World, events: seq<Event>): World
    decreases |events|
  {
    if events == [] then w
    else if !Enabled(w, events[0]) then Run(w, events[1..])
    else Run(Next(w, events[0]), events[1..])
  }

  lemma {:induction false} RunKeepsInv(w: World, events: seq<Event>)
    requires Inv(w)
    ensures Inv(Run(w, events))
    decreases |events|
  {
    if events != [] {
      if Enabled(w, events[0]) {
        StepKeepsInv(w, events[0]);
        RunKeepsInv(Next(w, events[0]), events[1..]);
      } else {
        RunKeepsInv(w, events[1..]);
      }
    }
  }

  /** The summary in the terms of the log. */
  lemma {:induction false} SummaryMeans(log: seq<Effect>, p: nat)
    requires SoundLog(MayRecord, log)
    ensures var m := Summarise(log);
      && (p in m.created <==> LockCreated(p) in log)
      && (m.holder == Some(p) <==> LockCreated(p) in log && LockReleased(p) !in log)
      && (p in m.spawned <==> exists c :: Spawned(p, c) in log)
      && (m.winner == Some(p) <==> Won(p) in log)
      && (LockReleased(p) in log ==> LockCreated(p) in log)
  {
    if log != [] {
      var init, last := log[..|log| - 1], log[|log| - 1];
      SummaryMeans(init, p);
      assert log == init + [last];
      if last.Spawned? { assert Spawned(last.process, last.connection) in log; }
      if p in Summarise(init).spawned {
        var c :| Spawned(p, c) in init;
        assert Spawned(p, c) in log;
      }
      if exists c :: Spawned(p, c) in log {
        var c :| Spawned(p, c) in log;
        assert Spawned(p, c) in init || last == Spawned(p, c);
      }
    }
  }

  ghost predicate InLock(log: seq<Effect>, p: nat) {
    LockCreated(p) in log && LockReleased(p) !in log
  }

  ghost predicate HasSpawned(log: seq<Effect>, p: nat) {
    exists c :: Spawned(p, c) in log
  }

  lemma OneWinner(log: seq<Effect>, p: nat, q: nat)
    requires SoundLog(MayRecord, log) && Won(p) in log && Won(q) in log
    ensures p == q
  {
    SummaryMeans(log, p);
    SummaryMeans(log, q);
  }

  /**
   Over every run of any number of processes: at most one process is between acquiring and releasing
   the lock, whoever created the lock and is done has released it, and every success was reported while
   the endpoint was healthy. At most one process both spawns a bridge and succeeds.
   */
  lemma LockSafety(delays: nat, lockFile: bool, healthy: bool, events: seq<Event>, p: nat, q: nat)
    ensures var w := Run(FreshWorld(delays, lockFile, healthy), events);
      p < |w.processes| && q < |w.processes| ==>
      && (Holds(w.processes[p]) && Holds(w.processes[q]) ==> p == q)
      && (w.processes[p].Done? && LockCreated(p) in w.log ==> LockReleased(p) in w.log)
      && (w.processes[p].Done? && w.processes[p].outcome.Success? ==> w.healthy)
      && (w.processes[p] == w.processes[q] == Done(Success(true)) ==> p == q)
  {
    RunKeepsInv(FreshWorld(delays, lockFile, healthy), events);
    var w := Run(FreshWorld(delays, lockFile, healthy), events);
    if p < |w.processes| && q < |w.processes| {
      assert ProcessInv(w.processes[p], p, w.lockFile, w.healthy, Summarise(w.log));
      assert ProcessInv(w.processes[q], q, w.lockFile, w.healthy, Summarise(w.log));
      SummaryMeans(w.log, p);
    }
  }

  /** What may follow a log, in the terms of the log. */
  lemma MayRecordMeans(log: seq<Effect>, e: Effect)
    requires SoundLog(MayRecord, log) && MayRecord(log, e)
    ensures e.Spawned? || e.ConfigWritten? ==> Permitted(e.connection)
    ensures if e.LockCreated? then forall q :: !InLock(log, q) else InLock(log, e.process)
    ensures e.PidWritten? || e.Won? ==> HasSpawned(log, e.process)
    ensures e.Spawned? || e.Won? ==> forall q :: Won(q) !in log
  {
    SummaryMeans(log, e.process);
    forall q: nat
      ensures (Summarise(log).holder.None? ==> !InLock(log, q)) && (Summarise(log).winner.None? ==> Won(q) !in log)
    {
      SummaryMeans(log, q);
    }
  }

  /**
   Over every run: nothing is spawned and no configuration is written for a connection the policy
   rejects, or outside the lock; a process writes a pid file only after it spawned; and once a process
   that spawned has seen its bridge healthy, nobody spawns again.
   */
  lemma SpawnSafety(delays: nat, lockFile: bool, healthy: bool, events: seq<Event>, i: nat)
    ensures var log := Run(FreshWorld(delays, lockFile, healthy), events).log;
      i < |log| ==>
      && (log[i].Spawned? || log[i].ConfigWritten? ==> Permitted(log[i].connection))
      && (!log[i].LockCreated? ==> InLock(log[..i], log[i].process))
      && (log[i].LockCreated? ==> forall q :: !InLock(log[..i], q))
      && (log[i].PidWritten? || log[i].Won? ==> HasSpawned(log[..i], log[i].process))
      && (log[i].Spawned? || log[i].Won? ==> forall q :: Won(q) !in log[..i])
  {
    RunKeepsInv(FreshWorld(delays, lockFile, healthy), events);
    var log := Run(FreshWorld(delays, lockFile, healthy), events).log;
    if i < |log| {
      SoundLogAt(MayRecord, log, i);
      MayRecordMeans(log[..i], log[i]);
    }
  }

  // ----- every process gets to its end -----

  /** Whether this event is a step of process p, counted. */
  function OwnStep(e: Event, p: nat): nat { if e.Step? && e.p == p then 1 else 0 }

  /** How many of these events are steps of process p. */
  function StepsOf(events: seq<Event>, p: nat): nat {
    if events == [] then 0 else OwnStep(events[0], p) + StepsOf(events[1..], p)
  }

  /** The rank of process p, which takes part in the world. */
  function RankAt(w: World, p: nat): nat
    requires p < |w.processes|
  {
    Rank(w.processes[p], w.delays)
  }

  lemma EventDescends(w: World, e: Event, p: nat)
    requires Enabled(w, e) && p < |w.processes|
    ensures var t := Next(w, e);
      && p < |t.processes|
      && (RankAt(t, p) == 0 || RankAt(t, p) + OwnStep(e, p) <= RankAt(w, p))
  {
    if e.Step? { OwnStepDescends(w, w.processes[e.p], e.ok, e.resolved); }
  }

  lemma {:induction false} RunDescends(w: World, events: seq<Event>, p: nat)
    requires p < |w.processes|
    ensures p < |Run(w, events).processes|
    ensures RankAt(Run(w, events), p) == 0 || RankAt(Run(w, events), p) + StepsOf(events, p) <= RankAt(w, p)
    decreases |events|
  {
    if events != [] {
      if Enabled(w, events[0]) {
        EventDescends(w, events[0], p);
        RunDescends(Next(w, events[0]), events[1..], p);
      } else {
        RunDescends(w, events[1..], p);
      }
    }
  }

  lemma DoneHasReleased(w: World, p: nat)
    requires Inv(w) && p < |w.processes| && RankAt(w, p) == 0
    ensures w.processes[p].Done? && (LockCreated(p) in w.log ==> LockReleased(p) in w.log)
  {
    assert ProcessInv(w.processes[p], p, w.lockFile, w.healthy, Summarise(w.log));
    SummaryMeans(w.log, p);
  }

  /**
   In any run, whatever else happens, a process that takes 2 * delays + 14 steps from inside the lock, or
   2 * delays + 17 from anywhere, is done, and if it created the lock it has released it.
   */
  lemma HolderReleases(w: World, events: seq<Event>, p: nat)
    requires Inv(w) && p < |w.processes|
    requires StepsOf(events, p) >= 2 * w.delays + (if Holds(w.processes[p]) then 14 else 17)
    ensures var t := Run(w, events);
      && p < |t.processes| && t.processes[p].Done?
      && (LockCreated(p) in t.log ==> LockReleased(p) in t.log)
  {
    assert InTime(w.processes[p], w.delays);
    RunDescends(w, events, p);
    RunKeepsInv(w, events);
    DoneHasReleased(Run(w, events), p);
  }

  // ----- what a healthy endpoint means for a process -----

  /** A process that begins, or waits for the lock with time left, in a healthy world, and where that leads it. */
  predicate SeesHealth(point: Point, waits: bool) {
    match point
    case FirstProbe(_, sample) => !waits && (sample.None? || sample.value)
    case Waiting(left, sample) => waits && (if sample.None? then left > 0 else sample.value)
    case Done(outcome) => outcome == Success(false)
    case _ => false
  }

  /** How many steps it still takes. */
  function StepsLeft(point: Point): nat {
    match point
    case FirstProbe(_, sample) => if sample.None? then 2 else 1
    case Waiting(_, sample) => if sample.None? then 2 else 1
    case _ => 0
  }

  predicate Informed(e: Event, p: nat, waits: bool) { e.Step? && e.p == p && waits ==> e.ok && e.resolved.token }

  lemma HealthIsSeen(w: World, e: Event, p: nat, waits: bool)
    requires Enabled(w, e) && w.healthy && p < |w.processes|
    requires SeesHealth(w.processes[p], waits) && Informed(e, p, waits)
    ensures var t := Next(w, e);
      && t.healthy && p < |t.processes| && SeesHealth(t.processes[p], waits)
      && (StepsLeft(t.processes[p]) == 0
          || StepsLeft(t.processes[p]) + OwnStep(e, p) <= StepsLeft(w.processes[p]))
      && w.log <= t.log && forall i :: |w.log| <= i < |t.log| ==> t.log[i].process != p
  {
  }

  /**
   Whatever the other processes do, a process that begins in a healthy world is done after two steps of its own,
   successfully, and so is one that waits for the lock and is told the token. Until then, and ever after, it
   creates no lock, writes nothing and spawns nothing.
   */
  lemma {:induction false} HealthyEndpointIsEnough(w: World, events: seq<Event>, p: nat, waits: bool)
    requires w.healthy && p < |w.processes| && SeesHealth(w.processes[p], waits)
    requires forall e :: e in events ==> Informed(e, p, waits)
    ensures var t := Run(w, events);
      && p < |t.processes| && SeesHealth(t.processes[p], waits)
      && (StepsOf(events, p) >= StepsLeft(w.processes[p]) ==> t.processes[p] == Done(Success(false)))
      && w.log <= t.log && forall i :: |w.log| <= i < |t.log| ==> t.log[i].process != p
    decreases |events|
  {
    if events != [] {
      assert events[0] in events;
      if Enabled(w, events[0]) {
        HealthIsSeen(w, events[0], p, waits);
        HealthyEndpointIsEnough(Next(w, events[0]), events[1..], p, waits);
      } else {
        HealthyEndpointIsEnough(w, events[1..], p, waits);
      }
    }
  }

  /** The same for a call: its process begins in a healthy world. */
  lemma BeginInHealthyWorld(w: World, c: Connection, events: seq<Event>)
    requires w.healthy && StepsOf(events, |w.processes|) >= 2
    ensures var (p, t) := (|w.processes|, Run(Next(w, Begin(c)), events));
      && p < |t.processes| && t.processes[p] == Done(Success(false))
      && w.log <= t.log && forall i :: |w.log| <= i < |t.log| ==> t.log[i].process != p
  {
    HealthyEndpointIsEnough(Next(w, Begin(c)), events, |w.processes|, false);
  }

  // ----- why a process fails -----

  /** What refuses a process: its policy, a missing token, an operation that fails, or the end of its patience. */
  predicate Refuses(point: Point, ok: bool, resolved: Connection) {
    match point
    case FirstProbe(c, sample) => sample == Some(false) && (!ok || !c.canAutoStart || !c.urlSafe)
    case UndoingLock => true
    case Waiting(left, sample) => (sample.None? && left == 0) || (sample == Some(true) && (!ok || !resolved.token))
    case Resolving => !ok || !resolved.canAutoStart || !resolved.urlSafe
    case ChoosingToken(c) => !ok && !c.token
    case ResolvingAgain => !ok
    case Planning(c) => !c.token || !c.canAutoStart || !c.urlSafe
    case Spawning(_) => !ok
    case Detaching(_) => !ok
    case WritingPid(_) => !ok
    case Polling(left, sample) => sample.None? && left == 0
    case _ => false
  }

  predicate HasFailed(point: Point) { point == Releasing(Failed) || point == Done(Failed) }

  lemma {:induction false} FailedStaysFailed(w: World, events: seq<Event>, p: nat)
    requires p < |w.processes| && HasFailed(w.processes[p])
    ensures var t := Run(w, events); p < |t.processes| && HasFailed(t.processes[p])
    decreases |events|
  {
    if events != [] {
      FailedStaysFailed(if Enabled(w, events[0]) then Next(w, events[0]) else w, events[1..], p);
    }
  }

  /** A process fails exactly when its own step is refused, and then for good: it never succeeds in any later run. */
  lemma FailsExactly(w: World, p: nat, ok: bool, resolved: Connection, events: seq<Event>)
    requires p < |w.processes| && !HasFailed(w.processes[p])
    ensures var t := Next(w, Step(p, ok, resolved));
      && (HasFailed(t.processes[p]) <==> Refuses(w.processes[p], ok, resolved))
      && var u := Run(t, events);
      p < |u.processes| && (Refuses(w.processes[p], ok, resolved) ==> HasFailed(u.processes[p]))
  {
    var t := Next(w, Step(p, ok, resolved));
    RunDescends(t, events, p);
    if HasFailed(t.processes[p]) { FailedStaysFailed(t, events, p); }
  }

  // ----- once the endpoint is healthy -----

  /** A process that has not seen the endpoint down for the last time, and whose patience has not ended. */
  predicate WillSee(point: Point) {
    match point
    case FirstProbe(_, sample) => sample != Some(false)
    case TryingLock => true
    case Waiting(left, sample) => if sample.None? then left > 0 else sample.value
    case Resolving => true
    case SecondProbe(_, sample) => sample != Some(false)
    case ThirdProbe(_, sample) => sample != Some(false)
    case Releasing(outcome) => outcome == Success(false)
    case Done(outcome) => outcome == Success(false)
    case _ => false
  }

  /** The operations of process p work, and what it resolves is permitted and has a token. */
  predicate Works(e: Event, p: nat) {
    match e
    case Step(q, ok, resolved) => q == p ==> ok && resolved.token && Permitted(resolved)
    case LockOpenFails(q) => q != p
    case LockWriteFails(q) => q != p
    case _ => true
  }

  lemma SeeingStep(w: World, e: Event, p: nat)
    requires Enabled(w, e) && w.healthy && w.delays > 0 && p < |w.processes| && WillSee(w.processes[p]) && Works(e, p)
    ensures var t := Next(w, e);
      && t.healthy && t.delays == w.delays && p < |t.processes| && WillSee(t.processes[p])
      && w.log <= t.log && forall c :: Spawned(p, c) in t.log ==> Spawned(p, c) in w.log
  {
  }

  /**
   In a healthy world a process whose operations work never spawns and never fails, wherever it is before its last
   look at the endpoint, in the lock or outside; with enough steps it is done, successfully.
   */
  lemma {:induction false} HealthPreventsSpawn(w: World, events: seq<Event>, p: nat)
    requires w.healthy && w.delays > 0 && p < |w.processes| && WillSee(w.processes[p])
    requires forall e :: e in events ==> Works(e, p)
    ensures var t := Run(w, events);
      && p < |t.processes| && WillSee(t.processes[p])
      && (StepsOf(events, p) >= RankAt(w, p) ==> t.processes[p] == Done(Success(false)))
      && forall c :: Spawned(p, c) in t.log ==> Spawned(p, c) in w.log
    decreases |events|
  {
    RunDescends(w, events, p);
    if events != [] {
      assert events[0] in events;
      if Enabled(w, events[0]) {
        SeeingStep(w, events[0], p);
        EventDescends(w, events[0], p);
        HealthPreventsSpawn(Next(w, events[0]), events[1..], p);
      } else {
        HealthPreventsSpawn(w, events[1..], p);
      }
    }
  }

  // ----- the token -----

  /** A token that is missing is written to the configuration and resolved again, or only passed on to the bridge. */
  lemma MissingTokenIsMade(w: World, p: nat, c: Connection, ignored: Connection, again: Connection)
    requires p < |w.processes| && w.processes[p] == ChoosingToken(c) && !c.token
    ensures var first := Next(w, Step(p, true, ignored));
      if c.persistable then
        && first.log == w.log + [ConfigWritten(p, c)]
        && Next(first, Step(p, true, again)).processes[p] == Planning(again)
        && Next(first, Step(p, true, again)).log == first.log
      else
        && first.log == w.log
        && first.processes[p] == Planning(Connection(c.canAutoStart, c.urlSafe, true, c.persistable))
  {
    var first := Next(w, Step(p, true, ignored));
    assert first.log + [] == first.log && w.log + [] == w.log;
  }

  // ----- the intended run -----

  /** A world with one process. */
  function Alone(point: Point, delays: nat, lockFile: bool, healthy: bool, log: seq<Effect>): World {
    World([point], delays, lockFile, healthy, log)
  }

  /** Where a lone process with connection c is after i undisturbed steps from the lock on. */
  function Stage(c: Connection, delays: nat, i: nat): Point
    requires i <= 13 && delays > 0
  {
    [Resolving, SecondProbe(c, None), SecondProbe(c, Some(false)), ChoosingToken(c), Planning(c),
     ThirdProbe(c, None), ThirdProbe(c, Some(false)), Spawning(c), Detaching(c), WritingPid(c),
     Polling(delays, None), Polling(delays - 1, Some(true)), Releasing(Success(true)), Done(Success(true))][i]
  }

  function StageLog(c: Connection, i: nat): seq<Effect> {
    [LockCreated(0), Spawned(0, c), PidWritten(0), Won(0), LockReleased(0)]
    [..if i < 8 then 1 else if i < 10 then 2 else if i < 12 then 3 else if i < 13 then 4 else 5]
  }

  /** The endpoint becomes healthy between the pid file and the first poll. */
  function StageWorld(c: Connection, delays: nat, i: nat, healthy: bool): World
    requires i <= 13 && delays > 0
  {
    Alone(Stage(c, delays, i), delays, i < 13, healthy, StageLog(c, i))
  }

  /** From stage to stage: one process creates the lock, spawns, writes the pid file, wins and releases the lock. */
  lemma LoneProcessStartsTheBridge(c: Connection, delays: nat, i: nat)
    requires Permitted(c) && c.token && delays > 0 && i < 13
    ensures Next(Alone(TryingLock, delays, false, false, []), Step(0, true, c)) == StageWorld(c, delays, 0, false)
    ensures Next(StageWorld(c, delays, i, i >= 10), Step(0, true, c)) == StageWorld(c, delays, i + 1, i >= 10)
    ensures Next(StageWorld(c, delays, 10, false), BecomesHealthy) == StageWorld(c, delays, 10, true)
  {
    assert [] + [LockCreated(0)] == StageLog(c, 0);
    var w := StageWorld(c, delays, i, i >= 10);
    assert StageLog(c, i) + StepEffects(w, 0, w.processes[0], true) == StageLog(c, i + 1);
  }
}
