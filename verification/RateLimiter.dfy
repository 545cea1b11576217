/**
 The proxy's rate limiter: fixed windows per client, with a sweeper that forgets expired windows. Times are
 whole milliseconds; the clock never runs backwards.
 */
module RateLimiter {
  import opened Prelude

  const WINDOW_MS: int := 60_000

  datatype Window = Window(count: int, start: int)

  predicate Expired(w: Window, now: int) { now - w.start >= WINDOW_MS }

  // ----- one client on its own -----

  /** The decision and the window it leaves; no window means the client is unknown. */
  function Decide(limit: int, w: Option<Window>, now: int): (bool, Option<Window>) {
    if w.None? || Expired(w.value, now) then (false, Some(Window(1, now)))
    else if w.value.count >= limit then (true, w)
    else (false, Some(Window(w.value.count + 1, w.value.start)))
  }

  /** The window after these requests, and the times of those that were admitted. */
  datatype History = History(window: Option<Window>, admitted: seq<int>)

  function Serve(limit: int, h: History, now: int): History {
    var (limited, w) := Decide(limit, h.window, now);
    History(w, if limited then h.admitted else h.admitted + [now])
  }

  function ServeAll(limit: int, times: seq<int>): History {
    if times == [] then History(None, []) else Serve(limit, ServeAll(limit, times[..|times| - 1]), times[|times| - 1])
  }

  ghost predicate NeverBackwards(times: seq<int>) {
    forall i, j :: 0 <= i < j < |times| ==> times[i] <= times[j]
  }

  /** How many of these times are no earlier than this one. */
  function CountFrom(times: seq<int>, from: int): nat {
    if times == [] then 0 else
      CountFrom(times[..|times| - 1], from) + if from <= times[|times| - 1] then 1 else 0
  }

  /** How many of these times lie in [from, until). */
  function Count(times: seq<int>, from: int, until: int): nat {
    if times == [] then 0 else
      var last := times[|times| - 1];
      Count(times[..|times| - 1], from, until) + if from <= last < until then 1 else 0
  }

  lemma {:induction false} CountIsDifference(times: seq<int>, from: int, until: int)
    requires from <= until
    ensures Count(times, from, until) == CountFrom(times, from) - CountFrom(times, until)
  {
    if times != [] { CountIsDifference(times[..|times| - 1], from, until); }
  }

  lemma CountFromOne(times: seq<int>, now: int, from: int)
    ensures CountFrom(times + [now], from) == CountFrom(times, from) + if from <= now then 1 else 0
  {
    assert (times + [now])[..|times|] == times;
  }

  lemma {:induction false} CountFromNone(times: seq<int>, from: int)
    requires forall i :: 0 <= i < |times| ==> times[i] < from
    ensures CountFrom(times, from) == 0
  {
    if times != [] { CountFromNone(times[..|times| - 1], from); }
  }

  lemma {:induction false} CountFromShrinks(times: seq<int>, from: int, later: int)
    requires from <= later
    ensures CountFrom(times, later) <= CountFrom(times, from)
  {
    if times != [] { CountFromShrinks(times[..|times| - 1], from, later); }
  }

  // ----- the bound -----

  /** The most requests one window admits: its first request is admitted even when the limit is not positive. */
  function Most(limit: int): int { Max(1, limit) }

  /** The current window, and what a minute beginning at t sees of it and of the one before. */
  ghost predicate WindowInv(limit: int, admitted: seq<int>, w: Window, now: int, t: int) {
    && w.start <= now
    && 1 <= w.count <= Most(limit)
    && CountFrom(admitted, w.start) == w.count
    && (forall i :: 0 <= i < |admitted| ==> admitted[i] <= now && admitted[i] < w.start + WINDOW_MS)
    && (t > w.start ==> CountFrom(admitted, t) <= w.count - 1)
    && (w.start - WINDOW_MS < t <= w.start ==> CountFrom(admitted, t) <= w.count + Most(limit) - 1)
    && (t == w.start - WINDOW_MS ==> CountFrom(admitted, t) <= w.count + Most(limit))
  }

  ghost predicate Bounded(limit: int, admitted: seq<int>, t: int) {
    && CountFrom(admitted, t) - CountFrom(admitted, t + WINDOW_MS) <= 2 * Most(limit) - 1
    && CountFrom(admitted, t) - CountFrom(admitted, t + WINDOW_MS + 1) <= 2 * Most(limit)
  }

  ghost predicate HistoryInv(limit: int, h: History, now: int, t: int) {
    && Bounded(limit, h.admitted, t)
    && (if h.window.None? then h.admitted == [] else WindowInv(limit, h.admitted, h.window.value, now, t))
  }

  lemma NewWindow(limit: int, admitted: seq<int>, w: Window, before: int, now: int, t: int)
    requires WindowInv(limit, admitted, w, before, t) && before <= now && Expired(w, now)
    ensures WindowInv(limit, admitted + [now], Window(1, now), now, t)
  {
    CountFromNone(admitted, now);
    CountFromOne(admitted, now, now);
    CountFromOne(admitted, now, t);
    if t > now { CountFromNone(admitted, t); }
  }

  lemma SameWindow(limit: int, admitted: seq<int>, w: Window, before: int, now: int, t: int)
    requires WindowInv(limit, admitted, w, before, t) && before <= now && !Expired(w, now) && w.count < limit
    ensures WindowInv(limit, admitted + [now], Window(w.count + 1, w.start), now, t)
  {
    CountFromOne(admitted, now, w.start);
    CountFromOne(admitted, now, t);
    if t > now { CountFromNone(admitted, t); }
  }

  lemma AdmitKeepsBound(limit: int, admitted: seq<int>, w: Window, now: int, t: int)
    requires Bounded(limit, admitted, t) && WindowInv(limit, admitted + [now], w, now, t) && now < w.start + WINDOW_MS
    ensures Bounded(limit, admitted + [now], t)
  {
    CountFromOne(admitted, now, t);
    CountFromOne(admitted, now, t + WINDOW_MS);
    CountFromOne(admitted, now, t + WINDOW_MS + 1);
  }

  lemma ServeKeepsInv(limit: int, h: History, before: int, now: int, t: int)
    requires HistoryInv(limit, h, before, t) && before <= now
    ensures HistoryInv(limit, Serve(limit, h, now), now, t)
  {
    if h.window.None? {
      assert h.admitted + [now] == [now];
      CountFromOne([], now, t);
      CountFromOne([], now, now);
      AdmitKeepsBound(limit, h.admitted, Window(1, now), now, t);
    } else {
      var w := h.window.value;
      if Expired(w, now) {
        NewWindow(limit, h.admitted, w, before, now, t);
        AdmitKeepsBound(limit, h.admitted, Window(1, now), now, t);
      } else if w.count < limit {
        SameWindow(limit, h.admitted, w, before, now, t);
        AdmitKeepsBound(limit, h.admitted, Window(w.count + 1, w.start), now, t);
      }
    }
  }

  lemma {:induction false} ServeAllKeepsInv(limit: int, times: seq<int>, now: int, t: int)
    requires NeverBackwards(times) && forall i :: 0 <= i < |times| ==> times[i] <= now
    ensures HistoryInv(limit, ServeAll(limit, times), now, t)
  {
    if times != [] {
      var init, last := times[..|times| - 1], times[|times| - 1];
      ServeAllKeepsInv(limit, init, last, t);
      ServeKeepsInv(limit, ServeAll(limit, init), last, last, t);
    }
  }

  /** How many requests are admitted in the minute that begins at t, with and without its last millisecond. */
  function ClosedMinute(limit: int, times: seq<int>, t: int): nat {
    Count(ServeAll(limit, times).admitted, t, t + WINDOW_MS + 1)
  }

  function HalfOpenMinute(limit: int, times: seq<int>, t: int): nat {
    Count(ServeAll(limit, times).admitted, t, t + WINDOW_MS)
  }

  /**
   Whatever the requests, a client gets at most 2 * max(1, limit) of them admitted in any minute, both ends
   included, and one fewer when one end is left out.
   */
  lemma AdmissionsAreBounded(limit: int, times: seq<int>, t: int)
    requires NeverBackwards(times)
    ensures HalfOpenMinute(limit, times, t) <= 2 * Most(limit) - 1
    ensures ClosedMinute(limit, times, t) <= 2 * Most(limit)
  {
    var admitted := ServeAll(limit, times).admitted;
    ServeAllKeepsInv(limit, times, if times == [] then 0 else times[|times| - 1], t);
    CountIsDifference(admitted, t, t + WINDOW_MS);
    CountIsDifference(admitted, t, t + WINDOW_MS + 1);
  }

  /** A request is refused only when a full window's worth was admitted in the minute before it. */
  lemma RefusedOnlyWhenFull(limit: int, times: seq<int>, now: int)
    requires NeverBackwards(times) && forall i :: 0 <= i < |times| ==> times[i] <= now
    requires Decide(limit, ServeAll(limit, times).window, now).0
    ensures Count(ServeAll(limit, times).admitted, now - WINDOW_MS + 1, now + 1) >= Most(limit)
  {
    var h := ServeAll(limit, times);
    ServeAllKeepsInv(limit, times, now, 0);
    CountFromShrinks(h.admitted, now - WINDOW_MS + 1, h.window.value.start);
    CountFromNone(h.admitted, now + 1);
    CountIsDifference(h.admitted, now - WINDOW_MS + 1, now + 1);
  }

  // ----- the bounds are reached, for every limit -----

  /** These requests and then n more at the same time. */
  function WithBurst(times: seq<int>, n: nat, now: int): seq<int> {
    if n == 0 then times else WithBurst(times, n - 1, now) + [now]
  }

  lemma ServeAllOne(limit: int, times: seq<int>, now: int)
    ensures ServeAll(limit, times + [now]) == Serve(limit, ServeAll(limit, times), now)
  {
    assert (times + [now])[..|times|] == times;
  }

  lemma CountOne(times: seq<int>, now: int, from: int, until: int)
    ensures Count(times + [now], from, until) == Count(times, from, until) + if from <= now < until then 1 else 0
  {
    assert (times + [now])[..|times|] == times;
  }

  /** All of these requests were admitted, and w is the window they leave. */
  ghost predicate AllAdmitted(limit: int, times: seq<int>, w: Window) {
    ServeAll(limit, times) == History(Some(w), times)
  }

  lemma OneMoreAdmitted(limit: int, times: seq<int>, w: Window, now: int)
    requires AllAdmitted(limit, times, w) && (Expired(w, now) || w.count < limit)
    ensures AllAdmitted(limit, times + [now], if Expired(w, now) then Window(1, now) else Window(w.count + 1, w.start))
  {
    ServeAllOne(limit, times, now);
  }

  /** A burst within the window, and no larger than what is left of it, is admitted as a whole. */
  lemma {:induction false} BurstIsAdmitted(limit: int, times: seq<int>, w: Window, n: nat, now: int)
    requires AllAdmitted(limit, times, w) && !Expired(w, now) && (n > 0 ==> w.count + n <= limit)
    ensures AllAdmitted(limit, WithBurst(times, n, now), Window(w.count + n, w.start))
  {
    if n > 0 {
      BurstIsAdmitted(limit, times, w, n - 1, now);
      OneMoreAdmitted(limit, WithBurst(times, n - 1, now), Window(w.count + n - 1, w.start), now);
    }
  }

  ghost predicate InOrderUpTo(times: seq<int>, last: int) {
    NeverBackwards(times) && forall i :: 0 <= i < |times| ==> times[i] <= last
  }

  lemma OneMoreInOrder(times: seq<int>, last: int, now: int)
    requires InOrderUpTo(times, last) && last <= now
    ensures InOrderUpTo(times + [now], now)
  {
  }

  lemma {:induction false} BurstInOrder(times: seq<int>, last: int, n: nat, now: int)
    requires InOrderUpTo(times, last) && last <= now
    ensures InOrderUpTo(WithBurst(times, n, now), now)
  {
    if n > 0 {
      BurstInOrder(times, last, n - 1, now);
      OneMoreInOrder(WithBurst(times, n - 1, now), now, now);
    }
  }

  lemma {:induction false} CountBurst(times: seq<int>, n: nat, now: int, from: int, until: int)
    ensures Count(WithBurst(times, n, now), from, until) ==
      Count(times, from, until) + if from <= now < until then n else 0
  {
    if n > 0 {
      CountBurst(times, n - 1, now, from, until);
      CountOne(WithBurst(times, n - 1, now), now, from, until);
    }
  }

  /** One request, the rest of its window just before it expires, and a whole window as soon as it has expired. */
  function Busiest(limit: int): seq<int> {
    WithBurst(FirstWindow(limit) + [WINDOW_MS], Most(limit) - 1, WINDOW_MS)
  }

  function FirstWindow(limit: int): seq<int> { WithBurst([0], Most(limit) - 1, WINDOW_MS - 1) }

  lemma FirstIsAdmitted(limit: int)
    ensures AllAdmitted(limit, [0], Window(1, 0))
  {
    assert [] + [0] == [0];
    ServeAllOne(limit, [], 0);
  }

  lemma BusiestIsAdmitted(limit: int)
    ensures AllAdmitted(limit, Busiest(limit), Window(Most(limit), WINDOW_MS))
  {
    var n := Most(limit) - 1;
    FirstIsAdmitted(limit);
    BurstIsAdmitted(limit, [0], Window(1, 0), n, WINDOW_MS - 1);
    OneMoreAdmitted(limit, FirstWindow(limit), Window(1 + n, 0), WINDOW_MS);
    BurstIsAdmitted(limit, FirstWindow(limit) + [WINDOW_MS], Window(1, WINDOW_MS), n, WINDOW_MS);
  }

  lemma BusiestInOrder(limit: int)
    ensures NeverBackwards(Busiest(limit))
  {
    var n := Most(limit) - 1;
    BurstInOrder([0], 0, n, WINDOW_MS - 1);
    OneMoreInOrder(FirstWindow(limit), WINDOW_MS - 1, WINDOW_MS);
    BurstInOrder(FirstWindow(limit) + [WINDOW_MS], WINDOW_MS, n, WINDOW_MS);
  }

  lemma CountBusiest(limit: int, from: int)
    requires 0 <= from < WINDOW_MS
    ensures Count(Busiest(limit), from, WINDOW_MS + 1) == 2 * Most(limit) - if from == 0 then 0 else 1
  {
    var n := Most(limit) - 1;
    assert [] + [0] == [0];
    CountOne([], 0, from, WINDOW_MS + 1);
    CountBurst([0], n, WINDOW_MS - 1, from, WINDOW_MS + 1);
    CountOne(FirstWindow(limit), WINDOW_MS, from, WINDOW_MS + 1);
    CountBurst(FirstWindow(limit) + [WINDOW_MS], n, WINDOW_MS, from, WINDOW_MS + 1);
  }

  /** For every limit some client gets as many requests admitted as the bounds allow. */
  lemma BoundIsTight(limit: int)
    ensures NeverBackwards(Busiest(limit))
    ensures ClosedMinute(limit, Busiest(limit), 0) == 2 * Most(limit)
    ensures HalfOpenMinute(limit, Busiest(limit), 1) == 2 * Most(limit) - 1
  {
    BusiestInOrder(limit);
    BusiestIsAdmitted(limit);
    CountBusiest(limit, 0);
    CountBusiest(limit, 1);
  }

  /** Twice the limit bounds every minute exactly when the limit is positive. */
  lemma LimitBoundsExactly(limit: int)
    ensures limit >= 1 <==>
      forall times, t :: NeverBackwards(times) ==> ClosedMinute(limit, times, t) <= 2 * limit
    ensures limit >= 1 <==>
      forall times, t :: NeverBackwards(times) ==> HalfOpenMinute(limit, times, t) <= 2 * limit - 1
  {
    BoundIsTight(limit);
    forall times, t | NeverBackwards(times)
      ensures ClosedMinute(limit, times, t) <= 2 * Most(limit) && HalfOpenMinute(limit, times, t) <= 2 * Most(limit) - 1
    {
      AdmissionsAreBounded(limit, times, t);
    }
  }

  // ----- all clients and the sweeper -----

  datatype Event<Ip> = Request(ip: Ip, now: int) | Sweep(now: int)

  function Lookup<Ip(==)>(store: map<Ip, Window>, ip: Ip): Option<Window> {
    if ip in store then Some(store[ip]) else None
  }

  function Swept<Ip(==)>(store: map<Ip, Window>, now: int): map<Ip, Window> {
    map ip | ip in store && !Expired(store[ip], now) :: store[ip]
  }

  function Next<Ip(==)>(limit: int, store: map<Ip, Window>, e: Event<Ip>): map<Ip, Window> {
    match e
    case Sweep(now) => Swept(store, now)
    case Request(ip, now) => store[ip := Decide(limit, Lookup(store, ip), now).1.value]
  }

  function StoreAfter<Ip(==)>(limit: int, events: seq<Event<Ip>>): map<Ip, Window> {
    if events == [] then map[]
    else Next(limit, StoreAfter(limit, events[..|events| - 1]), events[|events| - 1])
  }

  /** The times at which this client asks, and those at which the limiter with all its clients admits it. */
  function AskedBy<Ip(==)>(events: seq<Event<Ip>>, ip: Ip): seq<int> {
    if events == [] then [] else
      var e := events[|events| - 1];
      AskedBy(events[..|events| - 1], ip) + if e.Request? && e.ip == ip then [e.now] else []
  }

  function AdmittedFor<Ip(==)>(limit: int, events: seq<Event<Ip>>, ip: Ip): seq<int> {
    if events == [] then [] else
      var (init, e) := (events[..|events| - 1], events[|events| - 1]);
      AdmittedFor(limit, init, ip) +
      if e.Request? && e.ip == ip && !Decide(limit, Lookup(StoreAfter(limit, init), ip), e.now).0 then [e.now] else []
  }

  ghost predicate ClockForward<Ip>(events: seq<Event<Ip>>) {
    forall i, j :: 0 <= i < j < |events| ==> events[i].now <= events[j].now
  }

  /** What the store knows of a client is what the client alone would leave, or it was forgotten once expired. */
  ghost predicate KnowsOrForgot(known: Option<Window>, alone: Option<Window>, now: int) {
    known == alone || (known.None? && alone.Some? && Expired(alone.value, now))
  }

  lemma SameDecision(limit: int, known: Option<Window>, alone: Option<Window>, before: int, now: int)
    requires KnowsOrForgot(known, alone, before) && before <= now
    ensures Decide(limit, known, now) == Decide(limit, alone, now)
    ensures KnowsOrForgot(known, alone, now)
  {
  }

  lemma LookupNext<Ip>(limit: int, store: map<Ip, Window>, e: Event<Ip>, ip: Ip)
    ensures var known := Lookup(store, ip);
      Lookup(Next(limit, store, e), ip) ==
        if e.Sweep? then (if known.Some? && Expired(known.value, e.now) then None else known)
        else if e.ip == ip then Decide(limit, known, e.now).1 else known
  {
  }

  /** One event does the same to the client among all others as to the client alone. */
  lemma IsolationStep<Ip>(limit: int, store: map<Ip, Window>, alone: History, e: Event<Ip>, ip: Ip, before: int)
    requires KnowsOrForgot(Lookup(store, ip), alone.window, before) && before <= e.now
    ensures var mine := e.Request? && e.ip == ip;
      && KnowsOrForgot(Lookup(Next(limit, store, e), ip),
                       (if mine then Serve(limit, alone, e.now) else alone).window, e.now)
      && (mine ==> Decide(limit, Lookup(store, ip), e.now).0 == Decide(limit, alone.window, e.now).0)
  {
    LookupNext(limit, store, e, ip);
    SameDecision(limit, Lookup(store, ip), alone.window, before, e.now);
  }

  lemma {:induction false} IsolationHolds<Ip>(limit: int, events: seq<Event<Ip>>, ip: Ip, now: int)
    requires ClockForward(events) && forall i :: 0 <= i < |events| ==> events[i].now <= now
    ensures AdmittedFor(limit, events, ip) == ServeAll(limit, AskedBy(events, ip)).admitted
    ensures KnowsOrForgot(Lookup(StoreAfter(limit, events), ip), ServeAll(limit, AskedBy(events, ip)).window, now)
  {
    if events != [] {
      var init, e := events[..|events| - 1], events[|events| - 1];
      var asked := AskedBy(init, ip);
      IsolationHolds(limit, init, ip, e.now);
      IsolationStep(limit, StoreAfter(limit, init), ServeAll(limit, asked), e, ip, e.now);
      ServeAllOne(limit, asked, e.now);
      assert asked + [] == asked;
    }
  }

  /**
   Other clients and sweeps, at whatever moments they come, never change a decision: the admitted requests of a
   client are those it would get if it were alone and nothing was ever swept.
   */
  lemma ClientsAreIsolated<Ip>(limit: int, events: seq<Event<Ip>>, ip: Ip)
    requires ClockForward(events)
    ensures AdmittedFor(limit, events, ip) == ServeAll(limit, AskedBy(events, ip)).admitted
  {
    IsolationHolds(limit, events, ip, if events == [] then 0 else events[|events| - 1].now);
  }

  lemma {:induction false} AskedInOrder<Ip>(events: seq<Event<Ip>>, ip: Ip, now: int)
    requires ClockForward(events) && forall i :: 0 <= i < |events| ==> events[i].now <= now
    ensures NeverBackwards(AskedBy(events, ip))
    ensures forall i :: 0 <= i < |AskedBy(events, ip)| ==> AskedBy(events, ip)[i] <= now
  {
    if events != [] { AskedInOrder(events[..|events| - 1], ip, events[|events| - 1].now); }
  }

  /** The bound for any client of the whole limiter. */
  lemma EveryClientIsBounded<Ip>(limit: int, events: seq<Event<Ip>>, ip: Ip, t: int)
    requires ClockForward(events)
    ensures Count(AdmittedFor(limit, events, ip), t, t + WINDOW_MS) <= 2 * Most(limit) - 1
    ensures Count(AdmittedFor(limit, events, ip), t, t + WINDOW_MS + 1) <= 2 * Most(limit)
  {
    ClientsAreIsolated(limit, events, ip);
    AskedInOrder(events, ip, if events == [] then 0 else events[|events| - 1].now);
    AdmissionsAreBounded(limit, AskedBy(events, ip), t);
  }

  class RateLimiter<Ip(==)> {
    const limit: int
    var store: map<Ip, Window>

    constructor (limit: int)
      ensures this.limit == limit && store == map[]
    {
      this.limit := limit;
      store := map[];
    }

    /** The body of the timer callback. */
    method RemoveExpired(now: int)
      modifies this
      ensures store == Next(limit, old(store), Sweep(now))
    {
      var keys := store.Keys;
      while keys != {}
        invariant keys <= old(store).Keys
        invariant forall ip :: ip in store <==> ip in old(store) && (ip in keys || !Expired(old(store)[ip], now))
        invariant forall ip :: ip in store ==> store[ip] == old(store)[ip]
        decreases |keys|
      {
        var ip :| ip in keys;
        keys := keys - {ip};
        if Expired(store[ip], now) { store := store - {ip}; }
      }
    }

    method IsLimited(ip: Ip, now: int) returns (limited: bool)
      modifies this
      ensures limited == Decide(limit, Lookup(old(store), ip), now).0
      ensures store == Next(limit, old(store), Request(ip, now))
    {
      if ip !in store || now - store[ip].start >= WINDOW_MS {
        store := store[ip := Window(1, now)];
        return false;
      }
      if store[ip].count >= limit { return true; }
      store := store[ip := Window(store[ip].count + 1, store[ip].start)];
      return false;
    }
  }
}
