/**
 Authorised trusted input: the sequence of checks and input events with which a click or a fill is performed on
 a page, whatever the page, its owner and the network do in the meantime.

 Every question asked of the outside world (is the operation still active, did the send succeed, ...) is
 answered by an arbitrary function of the moment, and everything that happens is recorded in a trace.
 */
module TrustedInput {
  import opened Prelude

  datatype Coordinate = Finite(value: real) | NotFinite

  datatype Point = Point(x: Coordinate, y: Coordinate)

  datatype Button = Left | Middle | Right

  datatype Key = Control | Meta | Backspace | KeyA

  datatype Input =
    | MouseMoved(point: Point)
    | MousePressed(point: Point, button: Button, clickCount: int)
    | MouseReleased(point: Point, button: Button, clickCount: int)
    | KeyDown(key: Key, modifiers: nat)
    | KeyUp(key: Key, modifiers: nat)
    | InsertText(text: string)

  datatype Event =
    | ScopeCheck(ok: bool)
    | Authorise(ok: bool)
    | ResolvePoint(ok: bool)
    | AbortCheck(ok: bool)
    | Acquire(ok: bool)
    | Validate(ok: bool)           // of the operation's own arguments
    | ActiveCheck(ok: bool)        // neither aborted nor out of scope
    | ModifierAttempt(key: Key)    // from here on the modifier must be lifted again
    | Send(input: Input, ok: bool)
    | Release(ok: bool)

  /** The bounding box of a snapshot entry, and its centre if it has a usable one. */
  datatype Box = Box(x: Coordinate, y: Coordinate, width: Coordinate, height: Coordinate)

  function CentreOf(b: Box): Option<Point> {
    if b.x.Finite? && b.y.Finite? && b.width.Finite? && b.height.Finite? && b.width.value > 0.0 && b.height.value > 0.0
    then Some(Point(Finite(b.x.value + b.width.value / 2.0), Finite(b.y.value + b.height.value / 2.0)))
    else None
  }

  predicate Fails(e: Event) { !e.ModifierAttempt? && !e.ok }

  predicate IsModifier(key: Key) { key.Control? || key.Meta? }

  /** Events that undo an earlier one; the others need permission. */
  predicate IsCleanup(input: Input) { input.MouseReleased? || (input.KeyUp? && IsModifier(input.key)) }

  // ----- the monitor -----

  /** What a trace says about the present. */
  datatype Monitor = Monitor(
    authorised: bool,
    justChecked: bool,                 // the last thing that happened is a passing check
    failed: bool,
    held: bool,                        // the session is acquired
    release: Option<Input>,            // a press that reached the page, to be released next
    modifier: Option<Key>,             // to be lifted
    letter: Option<Input>)             // lifts a letter or Backspace that went down, unless something fails first

  const IDLE := Monitor(false, false, false, false, None, None, None)

  predicate Allows(m: Monitor, e: Event) {
    && AllowsEvent(m, e)
    && (m.letter.Some? && !m.failed ==> e.ActiveCheck? || (e.Send? && e.input == m.letter.value))
  }

  predicate AllowsEvent(m: Monitor, e: Event) {
    match e
    case Authorise(_) => !m.failed && !m.held
    case Acquire(_) => !m.failed && m.authorised && !m.held
    case Release(_) => m.held && m.release.None? && m.modifier.None?
    case ModifierAttempt(key) => !m.failed && m.held && IsModifier(key) && m.modifier.None?
    case Send(input, _) =>
      && m.held
      && (m.release.Some? ==> input == m.release.value)
      && (input.MouseReleased? ==> m.release.Some?)
      && (input.KeyUp? && IsModifier(input.key) ==> m.modifier == Some(input.key) && input.modifiers == 0)
      && (input.KeyDown? && IsModifier(input.key) ==> m.modifier == Some(input.key))
      && (!IsCleanup(input) ==> m.justChecked && m.authorised && !m.failed)
    case _ => !m.failed
  }

  function Apply(m: Monitor, e: Event): Monitor {
    var n := m.(failed := m.failed || Fails(e), justChecked := e == ActiveCheck(true));
    match e
    case Authorise(ok) => n.(authorised := ok)
    case Acquire(ok) => n.(held := ok)
    case Release(_) => n.(held := false)
    case ModifierAttempt(key) => n.(modifier := Some(key))
    case Send(input, ok) =>
      n.(release := if input.MousePressed? && ok
                    then Some(MouseReleased(input.point, input.button, input.clickCount)) else None,
         modifier := if input.KeyUp? && IsModifier(input.key) then None else m.modifier,
         letter := if m.failed then m.letter
                   else if input.KeyDown? && !IsModifier(input.key) && ok then Some(KeyUp(input.key, input.modifiers))
                   else None)
    case _ => n
  }

  /** The state of the monitor after a trace; none if the trace did something the monitor forbids. */
  function Watch(trace: seq<Event>): Option<Monitor> {
    if trace == [] then Some(IDLE) else
      var before, e := Watch(trace[..|trace| - 1]), trace[|trace| - 1];
      if before.Some? && Allows(before.value, e) then Some(Apply(before.value, e)) else None
  }

  lemma WatchOne(trace: seq<Event>, e: Event)
    ensures Watch(trace + [e]) ==
      if Watch(trace).Some? && Allows(Watch(trace).value, e) then Some(Apply(Watch(trace).value, e)) else None
  {
    assert (trace + [e])[..|trace|] == trace;
  }

  function Sent(trace: seq<Event>): seq<Input> {
    if trace == [] then [] else
      var e := trace[|trace| - 1];
      Sent(trace[..|trace| - 1]) + if e.Send? && e.ok then [e.input] else []
  }

  lemma SentOne(trace: seq<Event>, e: Event)
    ensures Sent(trace + [e]) == Sent(trace) + if e.Send? && e.ok then [e.input] else []
  {
    assert (trace + [e])[..|trace|] == trace;
  }

  // ----- the operations -----

  datatype Action =
    | Click(button: Option<Button>, clickCount: Option<int>)
    | Fill(text: string, selectAllModifier: Option<Key>)

  const ALT_META: nat := 4
  const CONTROL: nat := 2

  function ModifierValue(key: Key): nat { if key.Meta? then ALT_META else CONTROL }

  /** What a complete click sends. */
  function ClickInputs(point: Point, button: Button, count: int): seq<Input> {
    [MouseMoved(point), MousePressed(point, button, count), MouseReleased(point, button, count)]
  }

  function SelectAllInputs(modifier: Key): seq<Input> {
    var value := ModifierValue(modifier);
    [KeyDown(modifier, value), KeyDown(KeyA, value), KeyUp(KeyA, value), KeyUp(modifier, 0)]
  }

  function ReplaceInputs(text: string): seq<Input> {
    [KeyDown(Backspace, 0), KeyUp(Backspace, 0)] + if text != "" then [InsertText(text)] else []
  }

  function ActionInputs(point: Point, action: Action, defaultModifier: Key): seq<Input> {
    match action
    case Click(button, count) => ClickInputs(point, button.GetOr(Left), count.GetOr(1))
    case Fill(text, modifier) =>
      ClickInputs(point, Left, 1) + SelectAllInputs(modifier.GetOr(defaultModifier)) + ReplaceInputs(text)
  }

  /** A box of the viewport with an area. */
  predicate Usable(b: Box) {
    b.x.Finite? && b.y.Finite? && b.width.Finite? && b.height.Finite? && b.width.value > 0.0 && b.height.value > 0.0
  }

  /** The middle of a box, unless the page names a better point. */
  function Target(b: Box, resolver: Option<Point>): Point
    requires Usable(b)
  {
    resolver.GetOr(Point(Finite(b.x.value + b.width.value / 2.0), Finite(b.y.value + b.height.value / 2.0)))
  }

  lemma CentreMeans(b: Box, resolver: Option<Point>)
    ensures CentreOf(b).Some? <==> Usable(b)
    ensures Usable(b) ==> resolver.GetOr(CentreOf(b).value) == Target(b, resolver)
  {
  }

  /** Every input of an action at this point, written out. */
  ghost predicate WholeAction(inputs: seq<Input>, point: Point, action: Action, defaultModifier: Key) {
    match action
    case Click(button, count) =>
      var b := if button.Some? then button.value else Left;
      var n := if count.Some? then count.value else 1;
      inputs == [MouseMoved(point), MousePressed(point, b, n), MouseReleased(point, b, n)]
    case Fill(text, modifier) =>
      var key := if modifier.Some? then modifier.value else defaultModifier;
      var bits := if key == Meta then 4 else 2;
      inputs == [MouseMoved(point), MousePressed(point, Left, 1), MouseReleased(point, Left, 1),
                 KeyDown(key, bits), KeyDown(KeyA, bits), KeyUp(KeyA, bits), KeyUp(key, 0),
                 KeyDown(Backspace, 0), KeyUp(Backspace, 0)]
               + if text == "" then [] else [InsertText(text)]
  }

  lemma ActionInputsMean(point: Point, action: Action, defaultModifier: Key)
    ensures WholeAction(ActionInputs(point, action, defaultModifier), point, action, defaultModifier)
  {
  }

  /** Whatever is asked is answered well, and there is nothing wrong with the arguments either. */
  ghost predicate NothingGoesWrong(outcome: nat -> bool, point: Point, action: Action) {
    (forall i :: outcome(i)) && FineArguments(point, action)
  }

  /** A finite point, and at most three clicks. */
  predicate FineArguments(point: Point, action: Action) {
    && point.x.Finite? && point.y.Finite?
    && (action.Click? && action.clickCount.Some? ==> 1 <= action.clickCount.value <= 3)
  }

  predicate ModifierIsOne(action: Action) {
    action.Fill? && action.selectAllModifier.Some? ==> IsModifier(action.selectAllModifier.value)
  }

  /** Nothing is left to be released or lifted, except a letter when something failed while it was down. */
  predicate Settled(m: Monitor) {
    !m.held && m.release.None? && m.modifier.None? && (m.letter.Some? ==> m.failed)
  }

  /** Between acquiring and releasing the session, with nothing failed and nothing pressed but perhaps the modifier. */
  predicate Ready(m: Monitor) { !m.failed && m.held && m.authorised && m.release.None? && m.letter.None? }

  /** The letter that is down after an input. */
  function LetterAfter(input: Input): Option<Input> {
    if input.KeyDown? && !IsModifier(input.key) then Some(KeyUp(input.key, input.modifiers)) else None
  }

  // ----- which answers leave a key down -----

  /** Every question from moment `from` on and before moment `to` is answered well. */
  predicate AllPass(outcome: nat -> bool, from: nat, to: nat) { forall i :: from <= i < to ==> outcome(i) }

  /** A key tapped from moment n on stays down when it went down and one of the two checks that follow fails. */
  function TapLeaves(outcome: nat -> bool, n: nat, key: Key, modifiers: nat): Option<Input> {
    if outcome(n) && outcome(n + 1) && !(outcome(n + 2) && outcome(n + 3)) then Some(KeyUp(key, modifiers)) else None
  }

  /** Select-all presses its modifier before the letter. */
  function SelectAllLeaves(outcome: nat -> bool, n: nat, modifier: Key): Option<Input> {
    if AllPass(outcome, n, n + 3) then TapLeaves(outcome, n + 3, KeyA, ModifierValue(modifier)) else None
  }

  /** Replacing checks before Backspace. */
  function ReplaceLeaves(outcome: nat -> bool, n: nat): Option<Input> {
    if outcome(n) then TapLeaves(outcome, n + 1, Backspace, 0) else None
  }

  predicate Clickable(point: Point, count: int) { point.x.Finite? && point.y.Finite? && 1 <= count <= 3 }

  /** Select-all asks from moment n + 1 on, and what replaces the selection from n + 11 on. */
  function ContentsLeave(outcome: nat -> bool, n: nat, modifier: Key): Option<Input> {
    if AllPass(outcome, n + 1, n + 11) then ReplaceLeaves(outcome, n + 11)
    else SelectAllLeaves(outcome, n + 1, modifier)
  }

  /** A fill asks from moment n + 1 on for its click. */
  function FillLeaves(outcome: nat -> bool, n: nat, point: Point, modifier: Key): Option<Input> {
    if Clickable(point, 1) && AllPass(outcome, n + 1, n + 10) then ContentsLeave(outcome, n + 10, modifier) else None
  }

  /** A click never leaves a key down; a fill begins at moment n. */
  function ActionLeaves(outcome: nat -> bool, n: nat, point: Point, action: Action, defaultModifier: Key)
      : Option<Input>
  {
    match action
    case Click(_, _) => None
    case Fill(_, modifier) => FillLeaves(outcome, n, point, modifier.GetOr(defaultModifier))
  }

  /** The moment at which the session is asked for: after permission, the centre and perhaps the resolver's point. */
  function SessionMoment(resolver: Option<Point>): nat { if resolver.Some? then 6 else 4 }

  function LeavesDown(outcome: nat -> bool, policy: bool, box: Box, resolver: Option<Point>, action: Action,
      defaultModifier: Key): Option<Input>
  {
    var n := SessionMoment(resolver);
    if policy && AllPass(outcome, 0, 3) && CentreOf(box).Some? && AllPass(outcome, 4, n + 3) then
      ActionLeaves(outcome, n + 3, resolver.GetOr(CentreOf(box).value), action, defaultModifier)
    else None
  }

  class Operation {
    const outcome: nat -> bool
    var trace: seq<Event>
    var sent: seq<Input>          // the inputs whose methods the result lists
    ghost var monitor: Monitor

    ghost predicate Valid()
      reads this
    {
      Watch(trace) == Some(monitor) && sent == Sent(trace)
    }

    constructor (outcome: nat -> bool)
      ensures Valid() && trace == [] && sent == [] && monitor == IDLE && this.outcome == outcome
    {
      this.outcome := outcome;
      trace, sent, monitor := [], [], IDLE;
    }

    method Record(e: Event)
      requires Valid() && Allows(monitor, e)
      modifies this
      ensures Valid() && trace == old(trace) + [e] && monitor == Apply(old(monitor), e)
      ensures sent == old(sent) + if e.Send? && e.ok then [e.input] else []
    {
      WatchOne(trace, e);
      SentOne(trace, e);
      monitor := Apply(monitor, e);
      if e.Send? && e.ok { sent := sent + [e.input]; }
      trace := trace + [e];
    }

    /** assertOperationActive */
    method AssertActive() returns (ok: bool)
      requires Valid() && !monitor.failed
      modifies this
      ensures Valid() && monitor == old(monitor).(justChecked := ok, failed := !ok) && sent == old(sent)
      ensures ok == outcome(old(|trace|)) && |trace| == old(|trace|) + 1
    {
      ok := outcome(|trace|);
      Record(ActiveCheck(ok));
    }

    method SendInput(input: Input) returns (ok: bool)
      requires Valid() && Allows(monitor, Send(input, true))
      modifies this
      ensures Valid() && monitor == Apply(old(monitor), Send(input, ok))
      ensures sent == old(sent) + if ok then [input] else []
      ensures ok == outcome(old(|trace|)) && |trace| == old(|trace|) + 1
    {
      ok := outcome(|trace|);
      Record(Send(input, ok));
    }

    method CheckedSend(input: Input) returns (ok: bool)
      requires Valid() && Ready(monitor.(letter := None)) && (monitor.letter.None? || monitor.letter == Some(input))
      requires !IsCleanup(input) && !input.MousePressed?
      requires input.KeyDown? && IsModifier(input.key) ==> monitor.modifier == Some(input.key)
      modifies this
      ensures Valid()
      ensures monitor == old(monitor).(failed := !ok, justChecked := monitor.justChecked, letter := monitor.letter)
      ensures ok ==> monitor.justChecked && sent == old(sent) + [input] && |trace| == old(|trace|) + 3
      ensures var n := old(|trace|);
        && (ok <==> outcome(n) && outcome(n + 1) && outcome(n + 2))
        && monitor.letter ==
             if !outcome(n) then old(monitor).letter else if outcome(n + 1) then LetterAfter(input) else None
    {
      ok := AssertActive();
      if !ok { return; }
      ok := SendInput(input);
      if !ok { return; }
      ok := AssertActive();
    }

    /** The button goes down, and up again whatever the check in between says. */
    method PressAndRelease(point: Point, button: Button, count: int) returns (ok: bool)
      requires Valid() && Ready(monitor) && monitor.modifier.None?
      modifies this
      ensures Valid() && monitor == old(monitor).(failed := !ok, justChecked := monitor.justChecked)
      ensures ok ==> sent == old(sent) + [MousePressed(point, button, count), MouseReleased(point, button, count)]
      ensures var n := old(|trace|); ok <==> outcome(n) && outcome(n + 1) && outcome(n + 2) && outcome(n + 3)
      ensures ok ==> |trace| == old(|trace|) + 4
    {
      ok := AssertActive();
      if !ok { return; }
      ok := SendInput(MousePressed(point, button, count));
      if !ok { return; }
      ok := AssertActive();
      var released := SendInput(MouseReleased(point, button, count));
      ok := ok && released;
    }

    /** dispatchClick once its arguments are found valid. */
    method ClickAt(point: Point, button: Button, count: int) returns (ok: bool)
      requires Valid() && Ready(monitor) && monitor.modifier.None?
      modifies this
      ensures Valid() && monitor == old(monitor).(failed := !ok, justChecked := monitor.justChecked)
      ensures ok ==> sent == old(sent) + ClickInputs(point, button, count)
      ensures ok <==> AllPass(outcome, old(|trace|), old(|trace|) + 8)
      ensures ok ==> |trace| == old(|trace|) + 8
    {
      ok := CheckedSend(MouseMoved(point));
      if !ok { return; }
      ok := PressAndRelease(point, button, count);
      if !ok { return; }
      ok := AssertActive();
    }

    method DispatchClick(point: Point, button: Option<Button>, clickCount: Option<int>) returns (ok: bool)
      requires Valid() && Ready(monitor) && monitor.modifier.None?
      modifies this
      ensures Valid() && monitor == old(monitor).(failed := !ok, justChecked := monitor.justChecked)
      ensures ok ==> sent == old(sent) + ClickInputs(point, button.GetOr(Left), clickCount.GetOr(1))
      ensures ok <==> Clickable(point, clickCount.GetOr(1)) && AllPass(outcome, old(|trace|) + 1, old(|trace|) + 9)
      ensures ok ==> |trace| == old(|trace|) + 9
    {
      ok := Clickable(point, clickCount.GetOr(1));
      Record(Validate(ok));
      if !ok { return; }
      ok := ClickAt(point, button.GetOr(Left), clickCount.GetOr(1));
    }

    /** A key that is no modifier goes down and comes up again, unless a check or a send fails before that. */
    method TapKey(key: Key, modifiers: nat) returns (ok: bool)
      requires Valid() && Ready(monitor) && !IsModifier(key)
      modifies this
      ensures Valid()
      ensures monitor == old(monitor).(failed := !ok, justChecked := monitor.justChecked, letter := monitor.letter)
      ensures ok ==> sent == old(sent) + [KeyDown(key, modifiers), KeyUp(key, modifiers)] && |trace| == old(|trace|) + 6
      ensures ok <==> AllPass(outcome, old(|trace|), old(|trace|) + 6)
      ensures monitor.letter == TapLeaves(outcome, old(|trace|), key, modifiers)
    {
      ok := CheckedSend(KeyDown(key, modifiers));
      if !ok { return; }
      ok := CheckedSend(KeyUp(key, modifiers));
    }

    method PressSelectAll(modifier: Key) returns (ok: bool)
      requires Valid() && Ready(monitor) && monitor.modifier == Some(modifier) && IsModifier(modifier)
      modifies this
      ensures Valid()
      ensures monitor == old(monitor).(failed := !ok, justChecked := monitor.justChecked, letter := monitor.letter)
      ensures ok <==> AllPass(outcome, old(|trace|), old(|trace|) + 9)
      ensures ok ==> |trace| == old(|trace|) + 9
      ensures monitor.letter == SelectAllLeaves(outcome, old(|trace|), modifier)
      ensures ok ==> sent == old(sent) + SelectAllInputs(modifier)[..3]
    {
      var value := ModifierValue(modifier);
      ok := CheckedSend(KeyDown(modifier, value));
      if !ok { return; }
      ok := TapKey(KeyA, value);
    }

    /** Pressing the modifier and the letter; the modifier is lifted whatever happens. */
    method SelectAll(modifier: Key) returns (ok: bool)
      requires Valid() && Ready(monitor) && monitor.modifier.None? && IsModifier(modifier)
      modifies this
      ensures Valid() && monitor == old(monitor).(failed := !ok, justChecked := false, letter := monitor.letter)
      ensures ok <==> AllPass(outcome, old(|trace|) + 1, old(|trace|) + 11)
      ensures ok ==> |trace| == old(|trace|) + 11
      ensures monitor.letter == SelectAllLeaves(outcome, old(|trace|) + 1, modifier)
      ensures ok ==> sent == old(sent) + SelectAllInputs(modifier)
    {
      Record(ModifierAttempt(modifier));
      ok := PressSelectAll(modifier);
      var lifted := SendInput(KeyUp(modifier, 0));
      ok := ok && lifted;
    }

    method ReplaceText(text: string) returns (ok: bool)
      requires Valid() && Ready(monitor) && monitor.modifier.None?
      modifies this
      ensures Valid()
      ensures monitor == old(monitor).(failed := !ok, justChecked := monitor.justChecked, letter := monitor.letter)
      ensures ok ==> monitor.letter.None?
      ensures monitor.letter == ReplaceLeaves(outcome, old(|trace|))
      ensures ok ==> sent == old(sent) + ReplaceInputs(text)
      ensures (forall i :: outcome(i)) ==> ok
    {
      ok := AssertActive();
      if !ok { return; }
      ok := TapKey(Backspace, 0);
      if !ok { return; }
      if text != "" {
        ok := CheckedSend(InsertText(text));
        if !ok { return; }
      }
      ok := AssertActive();
    }

    method ReplaceContents(text: string, modifier: Key) returns (ok: bool)
      requires Valid() && Ready(monitor) && monitor.modifier.None? && IsModifier(modifier)
      modifies this
      ensures Valid()
      ensures monitor == old(monitor).(failed := !ok, justChecked := monitor.justChecked, letter := monitor.letter)
      ensures ok ==> monitor.letter.None?
      ensures ok ==> sent == old(sent) + (SelectAllInputs(modifier) + ReplaceInputs(text))
      ensures monitor.letter == ContentsLeave(outcome, old(|trace|), modifier)
      ensures (forall i :: outcome(i)) ==> ok
    {
      ok := SelectAll(modifier);
      if !ok { return; }
      ok := ReplaceText(text);
    }

    method FillField(point: Point, text: string, modifier: Key) returns (ok: bool)
      requires Valid() && Ready(monitor) && monitor.modifier.None? && IsModifier(modifier)
      modifies this
      ensures Valid()
      ensures monitor == old(monitor).(failed := !ok, justChecked := monitor.justChecked, letter := monitor.letter)
      ensures ok ==> monitor.letter.None?
      ensures monitor.letter == FillLeaves(outcome, old(|trace|), point, modifier)
      ensures ok ==> sent == old(sent) + (ClickInputs(point, Left, 1) + SelectAllInputs(modifier) + ReplaceInputs(text))
      ensures (forall i :: outcome(i)) && Clickable(point, 1) ==> ok
      ensures ok ==> Clickable(point, 1)
    {
      ok := DispatchClick(point, None, None);
      if !ok { return; }
      ok := AssertActive();
      if !ok { return; }
      ok := ReplaceContents(text, modifier);
    }

    method RunAction(point: Point, action: Action, defaultModifier: Key) returns (ok: bool)
      requires Valid() && Ready(monitor) && monitor.modifier.None?
      requires IsModifier(defaultModifier) && ModifierIsOne(action)
      modifies this
      ensures Valid()
      ensures monitor == old(monitor).(failed := !ok, justChecked := monitor.justChecked, letter := monitor.letter)
      ensures ok ==> monitor.letter.None?
      ensures monitor.letter == ActionLeaves(outcome, old(|trace|), point, action, defaultModifier)
      ensures ok ==> sent == old(sent) + ActionInputs(point, action, defaultModifier)
      ensures NothingGoesWrong(outcome, point, action) ==> ok
      ensures ok ==> FineArguments(point, action)
    {
      match action
      case Click(button, count) =>
        ok := DispatchClick(point, button, count);
        if !ok { return; }
        ok := AssertActive();
      case Fill(text, modifier) =>
        ok := FillField(point, text, modifier.GetOr(defaultModifier));
    }

    /** What happens between acquiring and releasing the session. */
    method UseSession(point: Point, action: Action, defaultModifier: Key) returns (ok: bool)
      requires Valid() && Ready(monitor) && monitor.modifier.None?
      requires IsModifier(defaultModifier) && ModifierIsOne(action)
      modifies this
      ensures Valid()
      ensures monitor == old(monitor).(failed := !ok, justChecked := monitor.justChecked, letter := monitor.letter)
      ensures ok ==> monitor.letter.None?
      ensures monitor.letter ==
        if outcome(old(|trace|)) then ActionLeaves(outcome, old(|trace|) + 1, point, action, defaultModifier) else None
      ensures ok ==> sent == old(sent) + ActionInputs(point, action, defaultModifier)
      ensures NothingGoesWrong(outcome, point, action) ==> ok
      ensures ok ==> FineArguments(point, action)
    {
      ok := outcome(|trace|);
      Record(AbortCheck(ok));
      if ok { ok := RunAction(point, action, defaultModifier); }
    }

    method AcquireSession() returns (ok: bool)
      requires Valid() && !monitor.failed && !monitor.held && monitor.authorised && monitor.letter.None?
      modifies this
      ensures Valid() && sent == old(sent)
      ensures monitor == old(monitor).(failed := !ok, held := ok, justChecked := false)
      ensures ok <==> AllPass(outcome, old(|trace|), old(|trace|) + 2)
      ensures ok ==> |trace| == old(|trace|) + 2
    {
      ok := outcome(|trace|);
      Record(AbortCheck(ok));
      if !ok { return; }
      ok := outcome(|trace|);
      Record(Acquire(ok));
    }

    /** click and fill of the trusted input driver */
    method WithSession(point: Point, action: Action, defaultModifier: Key) returns (ok: bool)
      requires Valid() && Ready(monitor.(held := true)) && !monitor.held && monitor.modifier.None?
      requires IsModifier(defaultModifier) && ModifierIsOne(action)
      modifies this
      ensures Valid() && monitor == old(monitor).(failed := !ok, justChecked := false, letter := monitor.letter)
      ensures ok ==> monitor.letter.None?
      ensures monitor.letter ==
        if AllPass(outcome, old(|trace|), old(|trace|) + 3)
        then ActionLeaves(outcome, old(|trace|) + 3, point, action, defaultModifier) else None
      ensures ok ==> sent == old(sent) + ActionInputs(point, action, defaultModifier)
      ensures NothingGoesWrong(outcome, point, action) ==> ok
      ensures ok ==> FineArguments(point, action)
    {
      ok := AcquireSession();
      if !ok { return; }
      ok := UseSession(point, action, defaultModifier);
      var released := outcome(|trace|);
      Record(Release(released));
      ok := ok && released;
    }

    method AssertScope() returns (ok: bool)
      requires Valid() && !monitor.failed && monitor.letter.None?
      modifies this
      ensures Valid() && monitor == old(monitor).(justChecked := false, failed := !ok) && sent == old(sent)
      ensures ok == outcome(old(|trace|)) && |trace| == old(|trace|) + 1
    {
      ok := outcome(|trace|);
      Record(ScopeCheck(ok));
    }

    /** Permission first: the target's policy is asked once, and the scope checked before and after. */
    method Authorised(policy: bool) returns (ok: bool)
      requires Valid() && monitor == IDLE
      modifies this
      ensures Valid() && monitor == IDLE.(authorised := monitor.authorised, failed := !ok) && sent == old(sent)
      ensures ok ==> monitor.authorised && |trace| == old(|trace|) + 3
      ensures ok <==> policy && AllPass(outcome, old(|trace|), old(|trace|) + 3)
    {
      ok := AssertScope();
      if !ok { return; }
      ok := policy && outcome(|trace|);
      Record(Authorise(ok));
      if !ok { return; }
      ok := AssertScope();
    }

    /** centerPoint */
    method CentrePoint(box: Box) returns (centre: Option<Point>)
      requires Valid() && !monitor.failed && monitor.letter.None?
      modifies this
      ensures Valid() && monitor == old(monitor).(justChecked := false, failed := centre.None?) && sent == old(sent)
      ensures centre == CentreOf(box)
      ensures |trace| == old(|trace|) + 1
    {
      centre := CentreOf(box);
      Record(Validate(centre.Some?));
    }

    /** The page may be asked for a better point than the centre of the stored box. */
    method ChoosePoint(box: Box, resolver: Option<Point>) returns (chosen: Option<Point>)
      requires Valid() && !monitor.failed && monitor.letter.None?
      modifies this
      ensures Valid() && monitor == old(monitor).(justChecked := monitor.justChecked, failed := chosen.None?)
      ensures sent == old(sent)
      ensures chosen.Some? ==> CentreOf(box).Some? && chosen.value == resolver.GetOr(CentreOf(box).value)
      ensures chosen.Some? <==>
        CentreOf(box).Some? && (resolver.Some? ==> AllPass(outcome, old(|trace|) + 1, old(|trace|) + 3))
      ensures chosen.Some? ==> |trace| == old(|trace|) + if resolver.Some? then 3 else 1
    {
      chosen := CentrePoint(box);
      if chosen.None? || resolver.None? { return; }
      chosen := resolver;
      var ok := outcome(|trace|);
      Record(ResolvePoint(ok));
      if !ok { return None; }
      ok := AssertScope();
      if !ok { return None; }
    }

    /** The action once nothing has been asked yet. */
    method Perform(policy: bool, box: Box, resolver: Option<Point>, action: Action, defaultModifier: Key)
        returns (ok: bool)
      requires Valid() && trace == []
      requires IsModifier(defaultModifier) && ModifierIsOne(action)
      modifies this
      ensures Valid() && Settled(monitor) && ok == !monitor.failed
      ensures ok ==> policy && Usable(box) && FineArguments(Target(box, resolver), action)
      ensures ok ==> WholeAction(sent, Target(box, resolver), action, defaultModifier)
      ensures policy && Usable(box) && NothingGoesWrong(outcome, Target(box, resolver), action) ==> ok
      ensures monitor.letter == LeavesDown(outcome, policy, box, resolver, action, defaultModifier)
    {
      ok := Authorised(policy);
      if !ok { return; }
      var point := ChoosePoint(box, resolver);
      if point.None? { return false; }
      CentreMeans(box, resolver);
      ActionInputsMean(point.value, action, defaultModifier);
      ok := WithSession(point.value, action, defaultModifier);
    }

    method PerformAuthorizedTrustedAction(policy: bool, box: Box, resolver: Option<Point>, action: Action,
        defaultModifier: Key)
        returns (ok: bool)
      requires Valid() && trace == []
      requires IsModifier(defaultModifier) && ModifierIsOne(action)
      modifies this
      ensures Valid() && Settled(monitor) && ok == !monitor.failed
      ensures ok ==> policy && Usable(box) && FineArguments(Target(box, resolver), action)
      ensures ok ==> WholeAction(sent, Target(box, resolver), action, defaultModifier)
      ensures policy && Usable(box) && NothingGoesWrong(outcome, Target(box, resolver), action) ==> ok
      ensures forall key, modifiers :: !IsModifier(key) ==>
        (LeftDown(trace, key, modifiers) <==>
          LeavesDown(outcome, policy, box, resolver, action, defaultModifier) == Some(KeyUp(key, modifiers)))
    {
      ok := Perform(policy, box, resolver, action, defaultModifier);
      forall key, modifiers | !IsModifier(key)
        ensures LeftDown(trace, key, modifiers) <==> monitor.letter == Some(KeyUp(key, modifiers))
      {
        LetterMeans(trace, key, modifiers);
      }
    }
  }

  // ----- what a watched trace guarantees -----

  lemma {:induction false} WatchedPrefix(trace: seq<Event>, i: nat)
    requires Watch(trace).Some? && i <= |trace|
    ensures Watch(trace[..i]).Some?
  {
    if i < |trace| {
      WatchedPrefix(trace[..|trace| - 1], i);
      assert trace[..|trace| - 1][..i] == trace[..i];
    } else {
      assert trace[..i] == trace;
    }
  }

  /** The state in which event i happened. */
  lemma WatchedAt(trace: seq<Event>, i: nat) returns (m: Monitor)
    requires Watch(trace).Some? && i < |trace|
    ensures Watch(trace[..i]) == Some(m) && Allows(m, trace[i]) && Watch(trace[..i + 1]) == Some(Apply(m, trace[i]))
  {
    WatchedPrefix(trace, i + 1);
    assert trace[..i + 1][..i] == trace[..i];
    m := Watch(trace[..i]).value;
  }

  lemma {:induction false} FailedMeans(trace: seq<Event>)
    requires Watch(trace).Some?
    ensures Watch(trace).value.failed <==> exists i :: 0 <= i < |trace| && Fails(trace[i])
  {
    if trace != [] {
      var init := trace[..|trace| - 1];
      FailedMeans(init);
      if Watch(init).value.failed {
        var i :| 0 <= i < |init| && Fails(init[i]);
        assert Fails(trace[i]);
      }
      assert Fails(trace[|trace| - 1]) ==> Watch(trace).value.failed;
    }
  }

  lemma {:induction false} AuthorisedMeans(trace: seq<Event>)
    requires Watch(trace).Some? && Watch(trace).value.authorised
    ensures Authorise(true) in trace
  {
    var init := trace[..|trace| - 1];
    if Watch(init).value.authorised { AuthorisedMeans(init); }
  }

  /**
   An input that is not a cleanup is sent right after a passing check, after permission was given, and before
   anything has failed.
   */
  lemma SendsAreAuthorised(trace: seq<Event>, i: nat)
    requires Watch(trace).Some? && i < |trace| && trace[i].Send? && !IsCleanup(trace[i].input)
    ensures i > 0 && trace[i - 1] == ActiveCheck(true)
    ensures exists j :: 0 <= j < i - 1 && trace[j] == Authorise(true)
    ensures forall j :: 0 <= j < i ==> !Fails(trace[j])
  {
    var m := WatchedAt(trace, i);
    var past := trace[..i];
    FailedMeans(past);
    AuthorisedMeans(past);
    assert forall j :: 0 <= j < i ==> past[j] == trace[j];
    var j :| 0 <= j < i && past[j] == Authorise(true);
    assert past[i - 1] == ActiveCheck(true);
  }

  /** After the first failure only cleanup is sent. */
  lemma OnlyCleanupAfterFailure(trace: seq<Event>, i: nat, j: nat)
    requires Watch(trace).Some? && i < j < |trace| && Fails(trace[i]) && trace[j].Send?
    ensures IsCleanup(trace[j].input)
  {
    if !IsCleanup(trace[j].input) { SendsAreAuthorised(trace, j); }
  }

  ghost predicate ReleasedNext(trace: seq<Event>, i: nat, input: Input) {
    exists j ::
      && i < j < |trace|
      && trace[j].Send? && trace[j].input == input
      && forall k :: i < k < j ==> !trace[k].Send?
  }

  lemma StillReleased(trace: seq<Event>, i: nat, input: Input)
    requires trace != [] && ReleasedNext(trace[..|trace| - 1], i, input)
    ensures ReleasedNext(trace, i, input)
  {
    var init := trace[..|trace| - 1];
    var j :| i < j < |init| && init[j].Send? && init[j].input == input && forall k :: i < k < j ==> !init[k].Send?;
    assert trace[j] == init[j] && forall k :: i < k < j ==> trace[k] == init[k];
  }

  /** Until then no input is sent. */
  ghost predicate ReleasePending(trace: seq<Event>, i: nat, input: Input)
    requires Watch(trace).Some?
  {
    Watch(trace).value.release == Some(input) && forall k :: i < k < |trace| ==> !trace[k].Send?
  }

  lemma NextOfPress(trace: seq<Event>, i: nat, input: Input)
    requires Watch(trace).Some? && i < |trace| - 1 && ReleasePending(trace[..|trace| - 1], i, input)
    ensures ReleasePending(trace, i, input) || ReleasedNext(trace, i, input)
  {
    var init, last := trace[..|trace| - 1], trace[|trace| - 1];
    assert forall k :: 0 <= k < |init| ==> init[k] == trace[k];
    if last.Send? { assert trace[|init|].input == input; }
  }

  lemma {:induction false} PressPendingOrReleased(trace: seq<Event>, i: nat, p: Point, b: Button, count: int)
    requires Watch(trace).Some? && i < |trace| && trace[i] == Send(MousePressed(p, b, count), true)
    ensures ReleasedNext(trace, i, MouseReleased(p, b, count)) || ReleasePending(trace, i, MouseReleased(p, b, count))
  {
    var init := trace[..|trace| - 1];
    if i < |init| {
      PressPendingOrReleased(init, i, p, b, count);
      if ReleasedNext(init, i, MouseReleased(p, b, count)) {
        StillReleased(trace, i, MouseReleased(p, b, count));
      } else {
        NextOfPress(trace, i, MouseReleased(p, b, count));
      }
    }
  }

  /** A press that reached the page is followed, as the next input, by the release of the same button. */
  lemma PressIsReleased(trace: seq<Event>, i: nat, p: Point, b: Button, count: int)
    requires Watch(trace).Some? && Settled(Watch(trace).value)
    requires i < |trace| && trace[i] == Send(MousePressed(p, b, count), true)
    ensures ReleasedNext(trace, i, MouseReleased(p, b, count))
  {
    PressPendingOrReleased(trace, i, p, b, count);
  }

  ghost predicate Lifted(trace: seq<Event>, i: nat, key: Key) {
    exists j :: i < j < |trace| && trace[j].Send? && trace[j].input == KeyUp(key, 0)
  }

  /** A modifier key whose press is attempted is lifted again later. */
  lemma ModifierIsLifted(trace: seq<Event>, i: nat, key: Key, modifiers: nat)
    requires Watch(trace).Some? && Settled(Watch(trace).value) && IsModifier(key)
    requires i < |trace| && trace[i].Send? && trace[i].input == KeyDown(key, modifiers)
    ensures Lifted(trace, i, key)
  {
    PressedModifierPendingOrLifted(trace, i, key, modifiers);
  }

  lemma {:induction false} PressedModifierPendingOrLifted(trace: seq<Event>, i: nat, key: Key, modifiers: nat)
    requires Watch(trace).Some? && IsModifier(key)
    requires i < |trace| && trace[i].Send? && trace[i].input == KeyDown(key, modifiers)
    ensures Lifted(trace, i, key) || Watch(trace).value.modifier == Some(key)
  {
    var init := trace[..|trace| - 1];
    if i < |init| {
      PressedModifierPendingOrLifted(init, i, key, modifiers);
      if Lifted(init, i, key) {
        var j :| i < j < |init| && init[j].Send? && init[j].input == KeyUp(key, 0);
        assert trace[j] == init[j];
      } else {
        assert trace[|init|] == trace[|trace| - 1];
      }
    }
  }

  // ----- letters -----

  /** After event i nothing but passing checks happens before event j. */
  ghost predicate OnlyChecksBetween(trace: seq<Event>, i: nat, j: nat) {
    i < j < |trace| && forall k :: i < k < j ==> trace[k] == ActiveCheck(true)
  }

  /** A letter that went down with event i comes up with the next event other than a passing check. */
  ghost predicate LetterLifted(trace: seq<Event>, i: nat, lift: Input) {
    exists j: nat :: OnlyChecksBetween(trace, i, j) && trace[j].Send? && trace[j].input == lift
  }

  /** The first check that fails comes before any other event. */
  ghost predicate CheckFailsFirst(trace: seq<Event>, i: nat) {
    exists j: nat :: OnlyChecksBetween(trace, i, j) && trace[j] == ActiveCheck(false)
  }

  lemma LaterStillBetween(trace: seq<Event>, i: nat, j: nat)
    requires trace != [] && OnlyChecksBetween(trace[..|trace| - 1], i, j)
    ensures OnlyChecksBetween(trace, i, j) && trace[j] == trace[..|trace| - 1][j]
  {
    var init := trace[..|trace| - 1];
    assert forall k :: 0 <= k < |init| ==> init[k] == trace[k];
  }

  /** As long as neither has happened the letter is down and there were only passing checks. */
  ghost predicate LetterPending(trace: seq<Event>, i: nat, lift: Input)
    requires Watch(trace).Some?
  {
    && Watch(trace).value.letter == Some(lift) && !Watch(trace).value.failed
    && forall k :: i < k < |trace| ==> trace[k] == ActiveCheck(true)
  }

  lemma {:induction false} LetterFate(trace: seq<Event>, i: nat, key: Key, modifiers: nat)
    requires Watch(trace).Some? && !IsModifier(key) && i < |trace| && trace[i] == Send(KeyDown(key, modifiers), true)
    ensures LetterPending(trace, i, KeyUp(key, modifiers)) || LetterLifted(trace, i, KeyUp(key, modifiers))
      || CheckFailsFirst(trace, i)
  {
    var init, last, lift := trace[..|trace| - 1], trace[|trace| - 1], KeyUp(key, modifiers);
    if i < |init| {
      LetterFate(init, i, key, modifiers);
      if LetterLifted(init, i, lift) {
        var j: nat :| OnlyChecksBetween(init, i, j) && init[j].Send? && init[j].input == lift;
        LaterStillBetween(trace, i, j);
      } else if CheckFailsFirst(init, i) {
        var j: nat :| OnlyChecksBetween(init, i, j) && init[j] == ActiveCheck(false);
        LaterStillBetween(trace, i, j);
      } else {
        NextOfPending(trace, i, lift);
      }
    }
  }

  lemma NextOfPending(trace: seq<Event>, i: nat, lift: Input)
    requires Watch(trace).Some? && i < |trace| - 1 && LetterPending(trace[..|trace| - 1], i, lift)
    ensures LetterPending(trace, i, lift) || LetterLifted(trace, i, lift) || CheckFailsFirst(trace, i)
  {
    var init, last := trace[..|trace| - 1], trace[|trace| - 1];
    assert forall k :: 0 <= k < |init| ==> init[k] == trace[k];
    assert OnlyChecksBetween(trace, i, |init|) && trace[|init|] == last;
  }

  /** Once everything is over, a letter that went down was lifted by the next input unless a check failed before it. */
  lemma LetterIsLiftedExactly(trace: seq<Event>, i: nat, key: Key, modifiers: nat)
    requires Watch(trace).Some? && Settled(Watch(trace).value) && !IsModifier(key)
    requires i < |trace| && trace[i] == Send(KeyDown(key, modifiers), true)
    ensures LetterLifted(trace, i, KeyUp(key, modifiers)) <==> !CheckFailsFirst(trace, i)
  {
    LetterFate(trace, i, key, modifiers);
  }

  /** And then it is not lifted at all: whatever is sent after a failure is a cleanup, and lifting a letter is none. */
  lemma LetterStaysDown(trace: seq<Event>, i: nat, key: Key, modifiers: nat, j: nat)
    requires Watch(trace).Some? && !IsModifier(key) && CheckFailsFirst(trace, i)
    requires i < j < |trace| && trace[j].Send?
    ensures trace[j].input != KeyUp(key, modifiers)
  {
    var k: nat :| OnlyChecksBetween(trace, i, k) && trace[k] == ActiveCheck(false);
    if k < j { OnlyCleanupAfterFailure(trace, k, j); }
  }

  /** The key went down, and no later input lifts it. */
  ghost predicate StaysDown(trace: seq<Event>, i: nat, key: Key, modifiers: nat) {
    && i < |trace| && trace[i] == Send(KeyDown(key, modifiers), true)
    && forall j :: i < j < |trace| && trace[j].Send? ==> trace[j].input != KeyUp(key, modifiers)
  }

  ghost predicate LeftDown(trace: seq<Event>, key: Key, modifiers: nat) {
    exists i: nat :: StaysDown(trace, i, key, modifiers)
  }

  /** What the monitor calls down is down. */
  lemma {:induction false} LetterMeans(trace: seq<Event>, key: Key, modifiers: nat)
    requires Watch(trace).Some? && !IsModifier(key)
    ensures Watch(trace).value.letter == Some(KeyUp(key, modifiers)) <==> LeftDown(trace, key, modifiers)
  {
    if trace != [] {
      LetterMeans(trace[..|trace| - 1], key, modifiers);
      LetterMeansNext(trace, key, modifiers);
    }
  }

  lemma LetterMeansNext(trace: seq<Event>, key: Key, modifiers: nat)
    requires trace != [] && Watch(trace).Some? && !IsModifier(key)
    requires var init := trace[..|trace| - 1];
      Watch(init).value.letter == Some(KeyUp(key, modifiers)) <==> LeftDown(init, key, modifiers)
    ensures Watch(trace).value.letter == Some(KeyUp(key, modifiers)) <==> LeftDown(trace, key, modifiers)
  {
    var init, last := trace[..|trace| - 1], trace[|trace| - 1];
    assert forall k :: 0 <= k < |init| ==> init[k] == trace[k];
    if LeftDown(trace, key, modifiers) {
      var i: nat :| StaysDown(trace, i, key, modifiers);
      if i < |init| { assert StaysDown(init, i, key, modifiers); }
    }
    if Watch(trace).value.letter == Some(KeyUp(key, modifiers)) {
      if last == Send(KeyDown(key, modifiers), true) {
        assert StaysDown(trace, |init|, key, modifiers);
      } else {
        var i: nat :| StaysDown(init, i, key, modifiers);
        assert StaysDown(trace, i, key, modifiers);
      }
    }
  }

  /** A fill whose 24th question, the check right after the letter of select-all, is the first to be answered badly. */
  method FillCanLeaveLetterDown(box: Box, text: string, modifier: Key) returns (operation: Operation, ok: bool)
    requires CentreOf(box).Some? && IsModifier(modifier)
    ensures operation.Valid() && Settled(operation.monitor) && !ok
    ensures LeftDown(operation.trace, KeyA, ModifierValue(modifier))
  {
    var outcome := (i: nat) => i != 23;
    operation := new Operation(outcome);
    ok := operation.PerformAuthorizedTrustedAction(true, box, None, Fill(text, None), modifier);
    assert !outcome(23) && !AllPass(outcome, 18, 28);
    LetterMeans(operation.trace, KeyA, ModifierValue(modifier));
  }

  // ----- the session -----

  lemma {:induction false} HeldOrReleased(trace: seq<Event>, i: nat)
    requires Watch(trace).Some? && i < |trace| && trace[i] == Acquire(true)
    ensures Watch(trace).value.held || exists j :: i < j < |trace| && trace[j].Release?
  {
    var init := trace[..|trace| - 1];
    if i < |init| {
      HeldOrReleased(init, i);
      if !Watch(init).value.held {
        var j :| i < j < |init| && init[j].Release?;
        assert trace[j].Release?;
      } else {
        assert trace[|init|] == trace[|trace| - 1];
      }
    }
  }

  /** The session is given back, whatever happens after it was acquired. */
  lemma SessionIsReleased(trace: seq<Event>, i: nat)
    requires Watch(trace).Some? && Settled(Watch(trace).value) && i < |trace| && trace[i] == Acquire(true)
    ensures exists j :: i < j < |trace| && trace[j].Release?
  {
    HeldOrReleased(trace, i);
  }
}
