/** The input handler: it keeps the pressed keys, folds mouse movement, toggles the capture flags, and offers
    events to a bounded queue that another task drains. */
module InputCapture {
  import opened Basics
  import opened HidMap
  import opened AppModel
  import opened Keyboard
  import opened Motion
  import opened Pointer
  import Combo

  const QUEUE_CAPACITY: nat := 50

  datatype Capture = Capture(
    pressed: set<Key>,
    mouse: Mouse,
    shared: AppState,
    queue: seq<InputEvent>,
    open: bool)
  {
    predicate HasRoom() { open && |queue| < QUEUE_CAPACITY }
  }

  function Offer(queue: seq<InputEvent>, open: bool, e: InputEvent): seq<InputEvent> {
    if open && |queue| < QUEUE_CAPACITY then queue + [e] else queue
  }

  function OfferAll(queue: seq<InputEvent>, open: bool, es: seq<InputEvent>): seq<InputEvent>
    decreases |es|
  {
    if es == [] then queue else OfferAll(Offer(queue, open, es[0]), open, es[1..])
  }

  function MoveEvent(f: Flush): InputEvent { RDevEvent(Event(f.at, None, MouseMove(f.delta))) }

  function MoveEvents(fs: seq<Flush>): seq<InputEvent> {
    if fs == [] then [] else [MoveEvent(fs[0])] + MoveEvents(fs[1..])
  }

  function MoveIn(c: Capture, pos: Vec, at: int): Pointer.Move {
    Pointer.Move(pos, at, c.shared.enableMouseCapture, c.HasRoom())
  }

  /** What a key press offers, judged by the flags read before any hot key took effect. */
  function PressOffers(c: Capture, key: Key, e: Event, clipboard: Option<string>): seq<InputEvent> {
    var pressed := c.pressed + {key};
    (if c.shared.enableClipboardCapture then ClipboardOffer(pressed, key, clipboard) else [])
    + (if c.shared.enableKeyCapture then KeyOffer(pressed, key, e) else [])
  }

  /** One event; `clipboard` is the clipboard's text, if it holds any. */
  function Handle(c: Capture, e: Event, clipboard: Option<string>): Capture {
    match e.eventType
    case KeyPress(key) =>
      var pressed := c.pressed + {key};
      var published := Published(pressed, key, c.shared);
      c.(pressed := pressed,
         shared := if published.Some? then published.value else c.shared,
         queue := OfferAll(c.queue, c.open, PressOffers(c, key, e, clipboard)))
    case KeyRelease(key) => c.(pressed := c.pressed - {key})
    case MouseMove(pos) =>
      var r := HandleMove(c.mouse, MoveIn(c, pos, e.time));
      c.(mouse := r.mouse, queue := c.queue + MoveEvents(WithFate(r.out, Queued)))
    case ButtonPress(_) =>
      if c.shared.enableMouseCapture then c.(queue := Offer(c.queue, c.open, RDevEvent(e))) else c
    case ButtonRelease(_) =>
      if c.shared.enableMouseCapture then c.(queue := Offer(c.queue, c.open, RDevEvent(e))) else c
    case Wheel(_, _) => c
  }

  // ---- The handler object -------------------------------------------------

  /** The bounded channel between the handler and the BLE task. */
  class InputChannel {
    var queue: seq<InputEvent>
    var open: bool

    constructor ()
      ensures queue == [] && open
    {
      queue, open := [], true;
    }

    method TrySend(e: InputEvent) returns (ok: bool)
      modifies this`queue
      ensures ok <==> open && |old(queue)| < QUEUE_CAPACITY
      ensures queue == Offer(old(queue), open, e)
    {
      ok := open && |queue| < QUEUE_CAPACITY;
      if ok {
        queue := queue + [e];
      }
    }

    method Receive() returns (e: Option<InputEvent>)
      modifies this`queue
      ensures old(queue) == (if e.Some? then [e.value] else []) + queue
      ensures e.None? <==> old(queue) == []
    {
      if queue == [] {
        e := None;
      } else {
        e, queue := Some(queue[0]), queue[1..];
      }
    }
  }

  class SysInputHandler {
    var pressedKeys: set<Key>
    var currentState: AppState
    var mouseLastPosition: Vec
    var accumulatedDelta: Vec
    var mouseLastEventTime: int
    const mouseDebounceThresholdMs: nat := MOUSE_DEBOUNCE_MS
    const inputEvents: InputChannel
    const appState: StateCell

    ghost function State(): Capture
      reads this, inputEvents, appState
    {
      Capture(pressedKeys, Mouse(mouseLastPosition, Accumulator(accumulatedDelta, mouseLastEventTime)),
              appState.value, inputEvents.queue, inputEvents.open)
    }

    constructor (inputEvents: InputChannel, appState: StateCell, now: int)
      ensures this.inputEvents == inputEvents && this.appState == appState
      ensures State() == Capture({}, Mouse(ZERO, Accumulator(ZERO, now)), appState.value,
                                 inputEvents.queue, inputEvents.open)
    {
      this.inputEvents, this.appState := inputEvents, appState;
      pressedKeys, currentState := {}, appState.value;
      mouseLastPosition, accumulatedDelta, mouseLastEventTime := ZERO, ZERO, now;
    }

    method HandleEvent(e: Event, clipboard: Option<string>)
      modifies this, inputEvents`queue, appState
      ensures State() == Handle(old(State()), e, clipboard)
      ensures currentState == old(appState.value)
    {
      currentState := appState.value;
      match e.eventType
      case KeyPress(_) => HandleKeyboardEvent(e, clipboard);
      case KeyRelease(_) => HandleKeyboardEvent(e, clipboard);
      case MouseMove(pos) => HandleMouseMove(pos, e.time);
      case ButtonPress(_) => HandleMouseClick(e);
      case ButtonRelease(_) => HandleMouseClick(e);
      case Wheel(_, _) =>
    }

    method HandleKeyboardEvent(e: Event, clipboard: Option<string>)
      requires e.eventType.KeyPress? || e.eventType.KeyRelease?
      requires currentState == appState.value
      modifies this`pressedKeys, inputEvents`queue, appState
      ensures State() == Handle(old(State()), e, clipboard)
    {
      match e.eventType
      case KeyPress(key) =>
        pressedKeys := pressedKeys + {key};
        HandleHotKeys(key);
        HandleClipboardEvent(key, clipboard);
        HandleCapturedKey(KeyToHid(key), KeyToAscii(key), e);
        OfferAllTwice(old(inputEvents.queue), inputEvents.open,
                      if currentState.enableClipboardCapture then ClipboardOffer(pressedKeys, key, clipboard) else [],
                      if currentState.enableKeyCapture then KeyOffer(pressedKeys, key, e) else []);
      case KeyRelease(key) =>
        pressedKeys := pressedKeys - {key};
    }

    /** The three hot-key handlers, each of which publishes the snapshot taken for this event
        with one flag flipped. */
    method HandleHotKeys(key: Key)
      requires currentState == appState.value
      modifies appState
      ensures appState.value == var p := Published(pressedKeys, key, old(appState.value));
                                if p.Some? then p.value else old(appState.value)
    {
      if key == KeyC && IsComboActive(true, true, false) {
        appState.value := currentState.(enableKeyCapture := !currentState.enableKeyCapture);
      }
      if key == KeyV && IsComboActive(true, true, false) {
        appState.value := currentState.(enableClipboardCapture := !currentState.enableClipboardCapture);
      }
      if key == KeyM && IsComboActive(true, true, false) {
        appState.value := currentState.(enableMouseCapture := !currentState.enableMouseCapture);
      }
    }

    /** Every required modifier is held; the others do not matter. */
    predicate IsComboActive(ctrl: bool, alt: bool, shift: bool)
      reads this`pressedKeys
    {
      && (!ctrl || CtrlDown(pressedKeys))
      && (!alt || AltDown(pressedKeys))
      && (!shift || ShiftDown(pressedKeys))
    }

    method HandleClipboardEvent(key: Key, clipboard: Option<string>)
      modifies inputEvents`queue
      ensures inputEvents.queue == OfferAll(old(inputEvents.queue), inputEvents.open,
                if currentState.enableClipboardCapture then ClipboardOffer(pressedKeys, key, clipboard) else [])
    {
      if currentState.enableClipboardCapture && key == KeyV && CtrlDown(pressedKeys) && clipboard.Some? {
        var _ := inputEvents.TrySend(Clipboard(clipboard.value));
      }
    }

    method HandleCapturedKey(hid: Option<Byte>, ascii: Option<Byte>, e: Event)
      modifies inputEvents`queue
      ensures inputEvents.queue == OfferAll(old(inputEvents.queue), inputEvents.open,
                if currentState.enableKeyCapture then CodeOffer(pressedKeys, hid, ascii, e) else [])
    {
      if currentState.enableKeyCapture {
        var ctrl, alt, shift := CtrlDown(pressedKeys), AltDown(pressedKeys), ShiftDown(pressedKeys);
        if ctrl || alt || shift || hid.Some? {
          var report := BuildHidReport(ctrl, alt, shift, if hid.Some? then hid else ascii);
          if report.Some? {
            var _ := inputEvents.TrySend(Keycode(report.value));
          }
        } else if ascii.Some? {
          var _ := inputEvents.TrySend(RDevEvent(e));
        }
      }
    }

    method HandleMouseClick(e: Event)
      modifies inputEvents`queue
      ensures inputEvents.queue == if currentState.enableMouseCapture
                                   then Offer(old(inputEvents.queue), inputEvents.open, RDevEvent(e))
                                   else old(inputEvents.queue)
    {
      if currentState.enableMouseCapture {
        var _ := inputEvents.TrySend(RDevEvent(e));
      }
    }

    method HandleMouseMove(pos: Vec, at: int)
      requires currentState == appState.value
      modifies this`mouseLastPosition, this`accumulatedDelta, this`mouseLastEventTime, inputEvents`queue
      ensures var r := HandleMove(old(State().mouse), MoveIn(old(State()), pos, at));
              && State().mouse == r.mouse
              && inputEvents.queue == old(inputEvents.queue) + MoveEvents(WithFate(r.out, Queued))
    {
      var delta := pos.Minus(mouseLastPosition);
      mouseLastPosition := pos;
      ProcessAccumulatedEvent(delta, at, mouseDebounceThresholdMs, currentState.enableMouseCapture);
    }

    method ProcessAccumulatedEvent(delta: Vec, at: int, thresholdMs: nat, enabled: bool)
      modifies this`accumulatedDelta, this`mouseLastEventTime, inputEvents`queue
      ensures var room := inputEvents.open && |old(inputEvents.queue)| < QUEUE_CAPACITY;
              var r := Accumulate(old(Accumulator(accumulatedDelta, mouseLastEventTime)),
                                  Sample(delta, at, enabled, room), thresholdMs);
              && Accumulator(accumulatedDelta, mouseLastEventTime) == r.acc
              && inputEvents.queue == old(inputEvents.queue) + MoveEvents(WithFate(r.out, Queued))
    {
      if Turns(delta, accumulatedDelta) {
        if (accumulatedDelta.x != 0.0 || accumulatedDelta.y != 0.0) && enabled {
          var _ := inputEvents.TrySend(RDevEvent(Event(at, None, MouseMove(accumulatedDelta))));
        }
        accumulatedDelta := delta;
        mouseLastEventTime := at;
      } else {
        accumulatedDelta := Vec(accumulatedDelta.x + delta.x, accumulatedDelta.y + delta.y);
        if mouseLastEventTime <= at && (at - mouseLastEventTime) / NANOS_PER_MS >= thresholdMs {
          if (accumulatedDelta.x != 0.0 || accumulatedDelta.y != 0.0) && enabled {
            var _ := inputEvents.TrySend(RDevEvent(Event(at, None, MouseMove(accumulatedDelta))));
          }
          accumulatedDelta := ZERO;
          mouseLastEventTime := at;
        }
      }
    }

    /** Fills the report in place: modifiers from byte 0 on, the key in byte 5. */
    method BuildHidReport(ctrl: bool, alt: bool, shift: bool, code: Option<Byte>) returns (r: Option<Bytes>)
      ensures r == HidReport(ctrl, shift, alt, code)
    {
      var report := new Byte[8](_ => 0);
      var modifierIdx := 0;
      ghost var codes: seq<Byte> := [];
      assert report[..] == Combo.Report(codes, 0);
      if ctrl {
        Combo.ReportExtends(codes, HID_CTRL);
        report[modifierIdx] := HID_CTRL;
        modifierIdx, codes := modifierIdx + 1, codes + [HID_CTRL];
      }
      if shift {
        Combo.ReportExtends(codes, HID_SHIFT);
        report[modifierIdx] := HID_SHIFT;
        modifierIdx, codes := modifierIdx + 1, codes + [HID_SHIFT];
      }
      if alt {
        Combo.ReportExtends(codes, HID_ALT);
        report[modifierIdx] := HID_ALT;
        modifierIdx, codes := modifierIdx + 1, codes + [HID_ALT];
      }
      assert codes == ModifierCodes(ctrl, shift, alt);
      if code.None? {
        return None;
      }
      Combo.ReportExtends(codes, code.value);
      report[5] := code.value;
      return Some(report[..]);
    }
  }

  lemma {:induction false} OfferAllTwice(queue: seq<InputEvent>, open: bool, a: seq<InputEvent>, b: seq<InputEvent>)
    ensures OfferAll(OfferAll(queue, open, a), open, b) == OfferAll(queue, open, a + b)
    decreases |a|
  {
    if a == [] {
      assert a + b == b;
    } else {
      assert (a + b)[1..] == a[1..] + b;
      OfferAllTwice(Offer(queue, open, a[0]), open, a[1..], b);
    }
  }

  // ---- Runs of the handler and the tasks around it ------------------------

  /** An input event, another task adding an event of its own once there is room, the BLE task taking one event from
      the queue, or the BLE task updating its part of the shared state. */
  datatype Step =
    | Input(event: Event, clipboard: Option<string>)
    | Enqueue(e: InputEvent)
    | Take
    | BleUpdate(devices: seq<Device>, connectedDevice: Option<Device>)

  function Next(c: Capture, step: Step): Capture {
    match step
    case Input(e, clipboard) => Handle(c, e, clipboard)
    case Enqueue(e) => if c.HasRoom() then c.(queue := c.queue + [e]) else c
    case Take => if c.queue == [] then c else c.(queue := c.queue[1..])
    case BleUpdate(devices, connected) =>
      c.(shared := c.shared.(devices := devices, connectedDevice := connected))
  }

  function Run(c: Capture, steps: seq<Step>): Capture
    decreases |steps|
  {
    if steps == [] then c else Run(Next(c, steps[0]), steps[1..])
  }

  datatype Source = Handler | Server

  datatype Accepted = Accepted(source: Source, event: InputEvent)

  /** The handler and the tasks around it, as they take turns. */
  method PerformStep(h: SysInputHandler, step: Step)
    modifies h, h.inputEvents`queue, h.appState
    ensures h.State() == Next(old(h.State()), step)
  {
    match step
    case Input(e, clipboard) => h.HandleEvent(e, clipboard);
    case Enqueue(e) => var _ := h.inputEvents.TrySend(e);
    case Take => var _ := h.inputEvents.Receive();
    case BleUpdate(devices, connected) =>
      h.appState.value := h.appState.value.(devices := devices, connectedDevice := connected);
  }

  method PerformSteps(h: SysInputHandler, steps: seq<Step>)
    modifies h, h.inputEvents`queue, h.appState
    ensures h.State() == Run(old(h.State()), steps)
  {
    assert steps[0..] == steps;
    for i := 0 to |steps|
      invariant Run(h.State(), steps[i..]) == Run(old(h.State()), steps)
    {
      assert steps[i..][1..] == steps[i + 1..];
      PerformStep(h, steps[i]);
    }
  }

  function TakenNow(c: Capture, step: Step): seq<InputEvent> {
    if step.Take? && c.queue != [] then [c.queue[0]] else []
  }

  function From(source: Source, es: seq<InputEvent>): seq<Accepted> {
    seq(|es|, i requires 0 <= i < |es| => Accepted(source, es[i]))
  }

  function Events(accepted: seq<Accepted>): seq<InputEvent> {
    seq(|accepted|, i requires 0 <= i < |accepted| => accepted[i].event)
  }

  /** What the handler put into the queue. */
  function ByHandler(accepted: seq<Accepted>): seq<InputEvent> {
    if accepted == [] then []
    else if accepted[0].source.Handler? then [accepted[0].event] + ByHandler(accepted[1..])
    else ByHandler(accepted[1..])
  }

  function AcceptedNow(c: Capture, step: Step): seq<Accepted> {
    var queue := Next(c, step).queue;
    if (step.Input? || step.Enqueue?) && |c.queue| <= |queue|
    then From(if step.Input? then Handler else Server, queue[|c.queue|..])
    else []
  }

  /** What the BLE task took from the queue along a run. */
  function Taken(c: Capture, steps: seq<Step>): seq<InputEvent>
    decreases |steps|
  {
    if steps == [] then [] else TakenNow(c, steps[0]) + Taken(Next(c, steps[0]), steps[1..])
  }

  /** What was put into the queue along a run, and by whom. */
  function AcceptedAlong(c: Capture, steps: seq<Step>): seq<Accepted>
    decreases |steps|
  {
    if steps == [] then [] else AcceptedNow(c, steps[0]) + AcceptedAlong(Next(c, steps[0]), steps[1..])
  }

  function MovesOf(c: Capture, steps: seq<Step>): seq<Pointer.Move>
    decreases |steps|
  {
    if steps == [] then []
    else (if steps[0].Input? && steps[0].event.eventType.MouseMove?
          then [MoveIn(c, steps[0].event.eventType.pos, steps[0].event.time)] else [])
         + MovesOf(Next(c, steps[0]), steps[1..])
  }

  function IsMove(e: InputEvent): bool { e.RDevEvent? && e.event.eventType.MouseMove? }

  function OnlyMoves(es: seq<InputEvent>): seq<InputEvent> {
    if es == [] then [] else if IsMove(es[0]) then [es[0]] + OnlyMoves(es[1..]) else OnlyMoves(es[1..])
  }

  lemma {:induction false} OfferAllExtends(queue: seq<InputEvent>, open: bool, es: seq<InputEvent>)
    ensures queue <= OfferAll(queue, open, es)
    ensures |queue| <= QUEUE_CAPACITY ==> |OfferAll(queue, open, es)| <= QUEUE_CAPACITY
    ensures forall e :: e in OfferAll(queue, open, es)[|queue|..] ==> e in es
    decreases |es|
  {
    if es != [] {
      var q := Offer(queue, open, es[0]);
      OfferAllExtends(q, open, es[1..]);
      var all := OfferAll(queue, open, es);
      forall e | e in all[|queue|..]
        ensures e in es
      {
        var i :| |queue| <= i < |all| && all[i] == e;
        if i < |q| {
          assert all[i] == q[i];
        } else {
          assert e in all[|q|..];
        }
      }
    }
  }

  lemma QueuedNeedsRoom(c: Capture, pos: Vec, at: int)
    ensures var queued := WithFate(HandleMove(c.mouse, MoveIn(c, pos, at)).out, Queued);
            |queued| <= 1 && (queued != [] ==> c.HasRoom()) && |MoveEvents(queued)| == |queued|
  {
  }

  lemma HandleExtends(c: Capture, e: Event, clipboard: Option<string>)
    requires |c.queue| <= QUEUE_CAPACITY
    ensures c.queue <= Handle(c, e, clipboard).queue
    ensures |Handle(c, e, clipboard).queue| <= QUEUE_CAPACITY
  {
    if e.eventType.KeyPress? {
      OfferAllExtends(c.queue, c.open, PressOffers(c, e.eventType.key, e, clipboard));
    } else if e.eventType.MouseMove? {
      QueuedNeedsRoom(c, e.eventType.pos, e.time);
    }
  }

  lemma InputConserves(c: Capture, e: Event, clipboard: Option<string>)
    requires |c.queue| <= QUEUE_CAPACITY
    ensures Handle(c, e, clipboard).queue == c.queue + Events(AcceptedNow(c, Input(e, clipboard)))
  {
    HandleExtends(c, e, clipboard);
    var queue := Handle(c, e, clipboard).queue;
    EventsOf(Handler, queue[|c.queue|..]);
    assert queue == c.queue + queue[|c.queue|..];
  }

  lemma EventsOf(source: Source, es: seq<InputEvent>)
    ensures Events(From(source, es)) == es
  {
  }

  lemma EventsAppend(a: seq<Accepted>, b: seq<Accepted>)
    ensures Events(a + b) == Events(a) + Events(b)
  {
  }

  lemma EnqueueConserves(c: Capture, e: InputEvent)
    ensures Next(c, Enqueue(e)).queue == c.queue + Events(AcceptedNow(c, Enqueue(e)))
  {
    var queue := Next(c, Enqueue(e)).queue;
    EventsOf(Server, queue[|c.queue|..]);
    assert queue == c.queue + queue[|c.queue|..];
  }

  lemma StepConserves(c: Capture, step: Step)
    requires |c.queue| <= QUEUE_CAPACITY
    ensures TakenNow(c, step) + Next(c, step).queue == c.queue + Events(AcceptedNow(c, step))
    ensures |Next(c, step).queue| <= QUEUE_CAPACITY
  {
    match step
    case Input(e, clipboard) =>
      InputConserves(c, e, clipboard);
      HandleExtends(c, e, clipboard);
    case Enqueue(e) => EnqueueConserves(c, e);
    case Take =>
    case BleUpdate(_, _) =>
  }

  /** The queue is first-in first-out and bounded: what was taken, followed by what is left, is what was there
      followed by what was accepted, from the handler and from other tasks as they came. */
  lemma {:induction false} QueueConserves(c: Capture, steps: seq<Step>)
    requires |c.queue| <= QUEUE_CAPACITY
    ensures Taken(c, steps) + Run(c, steps).queue == c.queue + Events(AcceptedAlong(c, steps))
    ensures |Run(c, steps).queue| <= QUEUE_CAPACITY
    decreases |steps|
  {
    if steps != [] {
      var n := Next(c, steps[0]);
      var now, later := AcceptedNow(c, steps[0]), AcceptedAlong(n, steps[1..]);
      StepConserves(c, steps[0]);
      QueueConserves(n, steps[1..]);
      EventsAppend(now, later);
      Regroup(TakenNow(c, steps[0]), Taken(n, steps[1..]), Run(n, steps[1..]).queue);
      Regroup(TakenNow(c, steps[0]), n.queue, Events(later));
      Regroup(c.queue, Events(now), Events(later));
    }
  }

  lemma {:induction false} ByHandlerAppend(a: seq<Accepted>, b: seq<Accepted>)
    ensures ByHandler(a + b) == ByHandler(a) + ByHandler(b)
  {
    if a == [] {
      assert a + b == b;
    } else {
      assert (a + b)[1..] == a[1..] + b;
      ByHandlerAppend(a[1..], b);
    }
  }

  lemma {:induction false} ByHandlerOf(source: Source, es: seq<InputEvent>)
    ensures ByHandler(From(source, es)) == if source.Handler? then es else []
  {
    if es != [] {
      assert From(source, es)[1..] == From(source, es[1..]);
      ByHandlerOf(source, es[1..]);
      assert es == [es[0]] + es[1..];
    }
  }

  lemma {:induction false} OnlyMovesAppend(a: seq<InputEvent>, b: seq<InputEvent>)
    ensures OnlyMoves(a + b) == OnlyMoves(a) + OnlyMoves(b)
  {
    if a == [] {
      assert a + b == b;
    } else {
      assert (a + b)[1..] == a[1..] + b;
      OnlyMovesAppend(a[1..], b);
    }
  }

  lemma {:induction false} MoveEventsAreMoves(fs: seq<Flush>)
    ensures OnlyMoves(MoveEvents(fs)) == MoveEvents(fs)
  {
    if fs != [] {
      assert MoveEvents(fs)[1..] == MoveEvents(fs[1..]);
      MoveEventsAreMoves(fs[1..]);
    }
  }

  lemma {:induction false} NoMoves(es: seq<InputEvent>)
    requires forall e :: e in es ==> !IsMove(e)
    ensures OnlyMoves(es) == []
  {
    if es != [] {
      assert es[0] in es && forall e :: e in es[1..] ==> e in es;
      NoMoves(es[1..]);
    }
  }

  /** What one step adds to the queue that moves the mouse. */
  lemma AcceptedMoves(c: Capture, e: Event, clipboard: Option<string>)
    requires |c.queue| <= QUEUE_CAPACITY
    requires e.eventType.KeyPress? || e.eventType.KeyRelease? ||
             e.eventType.ButtonPress? || e.eventType.ButtonRelease? || e.eventType.Wheel?
    ensures c.queue <= Handle(c, e, clipboard).queue
    ensures OnlyMoves(Handle(c, e, clipboard).queue[|c.queue|..]) == []
  {
    HandleExtends(c, e, clipboard);
    var q := Handle(c, e, clipboard).queue;
    if e.eventType.KeyPress? {
      OfferAllExtends(c.queue, c.open, PressOffers(c, e.eventType.key, e, clipboard));
    } else {
      assert forall x :: x in q[|c.queue|..] ==> x == RDevEvent(e);
    }
    NoMoves(q[|c.queue|..]);
  }

  lemma {:induction false} WithFateAppend(a: seq<Flush>, b: seq<Flush>, fate: Fate)
    ensures WithFate(a + b, fate) == WithFate(a, fate) + WithFate(b, fate)
  {
    if a == [] {
      assert a + b == b;
    } else {
      assert (a + b)[1..] == a[1..] + b;
      WithFateAppend(a[1..], b, fate);
    }
  }

  lemma {:induction false} MoveEventsAppend(a: seq<Flush>, b: seq<Flush>)
    ensures MoveEvents(a + b) == MoveEvents(a) + MoveEvents(b)
  {
    if a == [] {
      assert a + b == b;
    } else {
      assert (a + b)[1..] == a[1..] + b;
      MoveEventsAppend(a[1..], b);
    }
  }

  /** A mouse movement, as a move and as what it puts into the queue. */
  lemma MoveStep(c: Capture, e: Event, clipboard: Option<string>)
    requires e.eventType.MouseMove?
    ensures var first := HandleMove(c.mouse, MoveIn(c, e.eventType.pos, e.time));
            var moves := OnlyMoves(ByHandler(AcceptedNow(c, Input(e, clipboard))));
            Handle(c, e, clipboard).mouse == first.mouse && moves == MoveEvents(WithFate(first.out, Queued))
  {
    var added := MoveEvents(WithFate(HandleMove(c.mouse, MoveIn(c, e.eventType.pos, e.time)).out, Queued));
    var queue := Handle(c, e, clipboard).queue;
    assert queue[|c.queue|..] == added;
    ByHandlerOf(Handler, added);
    MoveEventsAreMoves(WithFate(HandleMove(c.mouse, MoveIn(c, e.eventType.pos, e.time)).out, Queued));
  }

  /** Every other step leaves the accumulator alone and has the handler queue no movement. */
  lemma OtherStep(c: Capture, step: Step)
    requires |c.queue| <= QUEUE_CAPACITY
    requires step.Input? ==> !step.event.eventType.MouseMove?
    ensures Next(c, step).mouse == c.mouse && OnlyMoves(ByHandler(AcceptedNow(c, step))) == []
  {
    if step.Input? {
      AcceptedMoves(c, step.event, step.clipboard);
      ByHandlerOf(Handler, Handle(c, step.event, step.clipboard).queue[|c.queue|..]);
    } else if step.Enqueue? {
      ByHandlerOf(Server, Next(c, step).queue[|c.queue|..]);
    }
  }

  /** Whatever happens in between (keys, clicks, hot keys, a draining or a full queue, events of other tasks, updates by
      the BLE task), the mouse events the handler gets into the queue are the queued flushes of the
      accumulator, in order. */
  lemma {:induction false} QueuedMovesAreFlushes(c: Capture, steps: seq<Step>)
    requires |c.queue| <= QUEUE_CAPACITY
    ensures var moves := HandleMoves(c.mouse, MovesOf(c, steps));
            && Run(c, steps).mouse == moves.mouse
            && OnlyMoves(ByHandler(AcceptedAlong(c, steps))) == MoveEvents(WithFate(moves.out, Queued))
    decreases |steps|
  {
    if steps != [] {
      var n, step := Next(c, steps[0]), steps[0];
      var rest, now, later := MovesOf(n, steps[1..]), AcceptedNow(c, step), AcceptedAlong(n, steps[1..]);
      StepConserves(c, step);
      QueuedMovesAreFlushes(n, steps[1..]);
      ByHandlerAppend(now, later);
      OnlyMovesAppend(ByHandler(now), ByHandler(later));
      if step.Input? && step.event.eventType.MouseMove? {
        MoveStep(c, step.event, step.clipboard);
        MoveFirst(c.mouse, MoveIn(c, step.event.eventType.pos, step.event.time), rest);
      } else {
        OtherStep(c, step);
        assert MovesOf(c, steps) == [] + rest == rest;
      }
    }
  }

  lemma MoveFirst(m: Mouse, mv: Pointer.Move, rest: seq<Pointer.Move>)
    ensures var first, all := HandleMove(m, mv), HandleMoves(m, [mv] + rest);
            var later := HandleMoves(first.mouse, rest);
            && all.mouse == later.mouse
            && MoveEvents(WithFate(all.out, Queued))
               == MoveEvents(WithFate(first.out, Queued)) + MoveEvents(WithFate(later.out, Queued))
  {
    var first := HandleMove(m, mv);
    assert ([mv] + rest)[1..] == rest;
    var later := HandleMoves(first.mouse, rest).out;
    WithFateAppend(first.out, later, Queued);
    MoveEventsAppend(WithFate(first.out, Queued), WithFate(later, Queued));
  }

  /** From start to queue: cut the cursor's movements at every change of direction and every debounce threshold, in the
      one way that is possible; the mouse events the handler queued are the nonzero sums of those cuts that were
      closed with capture on and room in the queue, in order. */
  lemma QueuedMovesAreSegments(c: Capture, steps: seq<Step>) returns (closed: seq<Segment>, open: seq<Sample>)
    requires |c.queue| <= QUEUE_CAPACITY && c.mouse.acc.sum == ZERO
    ensures var ds := Deltas(c.mouse.last, MovesOf(c, steps));
            && Segmented(closed, open, c.mouse.acc.resetAt, ds, MOUSE_DEBOUNCE_MS)
            && OnlyMoves(ByHandler(AcceptedAlong(c, steps))) == MoveEvents(WithFate(SegmentFlushes(closed, ds), Queued))
            && Run(c, steps).mouse.acc.sum == Sum(open)
  {
    var moves := MovesOf(c, steps);
    var ds := Deltas(c.mouse.last, moves);
    var start := c.mouse.acc.resetAt;
    QueuedMovesAreFlushes(c, steps);
    MovesAreDeltas(c.mouse, moves);
    closed, open := SegmentationExists([], start, ds, MOUSE_DEBOUNCE_MS);
    assert [] + ds == ds;
    RefinesSegmenter(closed, open, start, ds, MOUSE_DEBOUNCE_MS);
  }
}
