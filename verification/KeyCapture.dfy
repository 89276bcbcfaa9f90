/** What the handler makes of every input event, told by the history of the keys instead of the handler's own state. */
module KeyCapture {
  import opened Basics
  import opened HidMap
  import opened AppModel
  import opened Keyboard
  import opened Motion
  import opened Pointer
  import opened InputCapture
  import HotKeys
  import Combo
  import Packets

  // ---- The keys held down -------------------------------------------------

  function KeyEventsOf(e: Event): seq<KeyEvent> {
    match e.eventType
    case KeyPress(key) => [Press(key)]
    case KeyRelease(key) => [Release(key)]
    case _ => []
  }

  /** The key presses and releases of a run. */
  function KeyEvents(steps: seq<Step>): seq<KeyEvent> {
    if steps == [] then []
    else (if steps[0].Input? then KeyEventsOf(steps[0].event) else []) + KeyEvents(steps[1..])
  }

  lemma StepPresses(c: Capture, step: Step, before: seq<KeyEvent>)
    requires c.pressed == PressedAfter(before)
    ensures Next(c, step).pressed == PressedAfter(before + if step.Input? then KeyEventsOf(step.event) else [])
  {
    if step.Input? && KeyEventsOf(step.event) != [] {
      InputPresses(c, step.event, step.clipboard);
      OneMorePressed(before, KeyEventsOf(step.event)[0]);
    } else {
      OthersPressNothing(c, step);
      assert before + [] == before;
    }
  }

  lemma InputPresses(c: Capture, e: Event, clipboard: Option<string>)
    requires KeyEventsOf(e) != []
    ensures Handle(c, e, clipboard).pressed == Keyboard.Apply(c.pressed, KeyEventsOf(e)[0])
  {
  }

  lemma OthersPressNothing(c: Capture, step: Step)
    requires step.Input? ==> KeyEventsOf(step.event) == []
    ensures Next(c, step).pressed == c.pressed
  {
  }

  lemma OneMorePressed(before: seq<KeyEvent>, e: KeyEvent)
    ensures PressedAfter(before + [e]) == Keyboard.Apply(PressedAfter(before), e)
  {
    assert DropLast(before + [e]) == before && Last(before + [e]) == e;
  }

  lemma {:induction false} PressedAfterRun(c: Capture, steps: seq<Step>, before: seq<KeyEvent>)
    requires c.pressed == PressedAfter(before)
    ensures InputCapture.Run(c, steps).pressed == PressedAfter(before + KeyEvents(steps))
    decreases |steps|
  {
    if steps == [] {
      assert before + [] == before;
    } else {
      var now := if steps[0].Input? then KeyEventsOf(steps[0].event) else [];
      StepPresses(c, steps[0], before);
      PressedAfterRun(Next(c, steps[0]), steps[1..], before + now);
      Regroup(before, now, KeyEvents(steps[1..]));
    }
  }

  /** Along every run a key is in the pressed set exactly when the last event of that key was a press. */
  lemma PressedIsHistory(c: Capture, steps: seq<Step>, key: Key)
    requires c.pressed == {}
    ensures key in InputCapture.Run(c, steps).pressed <==> IsDown(KeyEvents(steps), key)
  {
    PressedAfterRun(c, steps, []);
    assert [] + KeyEvents(steps) == KeyEvents(steps);
    PressedIsDown(KeyEvents(steps), key);
  }

  // ---- The queue ----------------------------------------------------------

  /** The queue holds fifty events. */
  function RoomIn(c: Capture): nat { if c.open && |c.queue| <= 50 then 50 - |c.queue| else 0 }

  /** Of some events offered one after the other, the queue takes as many as it has room for. */
  lemma {:induction false} OffersFill(queue: seq<InputEvent>, open: bool, es: seq<InputEvent>)
    requires |queue| <= QUEUE_CAPACITY
    ensures var room := if open then 50 - |queue| else 0;
            OfferAll(queue, open, es) == queue + es[..Packets.Min(room, |es|)]
    decreases |es|
  {
    if es == [] {
      assert queue + [] == queue;
    } else {
      OffersFill(Offer(queue, open, es[0]), open, es[1..]);
      if open && |queue| < QUEUE_CAPACITY {
        var k := Packets.Min(QUEUE_CAPACITY - |queue| - 1, |es| - 1);
        assert es[..k + 1] == [es[0]] + es[1..][..k];
        Regroup(queue, [es[0]], es[1..][..k]);
      } else {
        assert queue + [] == queue;
      }
    }
  }

  // ---- Key presses --------------------------------------------------------

  /** Eight bytes: the codes of the modifier classes held, left-hand ones, in the order Ctrl, Shift, Alt from byte 0
      on; the key in byte 5; zeros elsewhere. */
  predicate Encodes(r: Bytes, ctrl: bool, shift: bool, alt: bool, code: Byte) {
    var mods := (if ctrl then [0x80] else []) + (if shift then [0x81] else []) + (if alt then [0x82] else []);
    && |r| == 8 && r[..|mods|] == mods && (forall i :: |mods| <= i < 5 ==> r[i] == 0)
    && r[5] == code && r[6] == 0 && r[7] == 0
  }

  lemma ReportEncodes(ctrl: bool, shift: bool, alt: bool, code: Byte)
    ensures Encodes(Combo.Report(ModifierCodes(ctrl, shift, alt), code), ctrl, shift, alt, code)
  {
  }

  /** What a captured press of a key offers at the end of this history. */
  ghost predicate IsKeyOffer(offer: seq<InputEvent>, history: seq<KeyEvent>, key: Key, e: Event) {
    var ctrl := ClassDown(history, ControlLeft, ControlRight);
    var shift := ClassDown(history, ShiftLeft, ShiftRight);
    var alt := ClassDown(history, Alt, AltGr);
    if KeyCode(key).None? then offer == []
    else if !ctrl && !shift && !alt && KeyToHid(key).None? then offer == [RDevEvent(e)]
    else |offer| == 1 && offer[0].Keycode? && Encodes(offer[0].codes, ctrl, shift, alt, KeyCode(key).value)
  }

  /** What a press pastes at the end of this history. */
  ghost predicate IsPasteOffer(offer: seq<InputEvent>, history: seq<KeyEvent>, key: Key, clipboard: Option<string>) {
    if key == KeyV && ClassDown(history, ControlLeft, ControlRight) && clipboard.Some?
    then offer == [Clipboard(clipboard.value)] else offer == []
  }

  lemma KeyOfferIsHistory(history: seq<KeyEvent>, key: Key, e: Event)
    requires history != [] && Last(history) == Press(key)
    ensures IsKeyOffer(KeyOffer(PressedAfter(history), key, e), history, key, e)
  {
    CapturedPress(history, key, e);
    if KeyCode(key).Some? {
      ReportEncodes(ClassDown(history, ControlLeft, ControlRight), ClassDown(history, ShiftLeft, ShiftRight),
                    ClassDown(history, Alt, AltGr), KeyCode(key).value);
    }
  }

  lemma PasteIsHistory(history: seq<KeyEvent>, key: Key, clipboard: Option<string>)
    ensures IsPasteOffer(ClipboardOffer(PressedAfter(history), key, clipboard), history, key, clipboard)
  {
    ClassesAreDown(history);
  }

  lemma PressKeepsPressed(c: Capture, steps: seq<Step>, key: Key)
    requires c.pressed == {}
    ensures InputCapture.Run(c, steps).pressed + {key} == PressedAfter(KeyEvents(steps) + [Press(key)])
  {
    PressedAfterRun(c, steps, []);
    assert [] + KeyEvents(steps) == KeyEvents(steps);
    OneMorePressed(KeyEvents(steps), Press(key));
  }

  /** At the end of every run, a key press offers a paste if clipboard capture is on and then the key itself if key
      capture is on, both as the history of the keys says; the queue takes as many as it has room for. */
  lemma PressIsOffered(start: Capture, steps: seq<Step>, e: Event, key: Key, clipboard: Option<string>)
    returns (paste: seq<InputEvent>, offer: seq<InputEvent>)
    requires start.pressed == {} && |start.queue| <= QUEUE_CAPACITY && e.eventType == KeyPress(key)
    ensures var c, history := InputCapture.Run(start, steps), KeyEvents(steps) + [Press(key)];
            && (if c.shared.enableClipboardCapture then IsPasteOffer(paste, history, key, clipboard) else paste == [])
            && (if c.shared.enableKeyCapture then IsKeyOffer(offer, history, key, e) else offer == [])
            && Next(c, Input(e, clipboard)).queue
               == c.queue + (paste + offer)[..Packets.Min(RoomIn(c), |paste + offer|)]
  {
    var c, history := InputCapture.Run(start, steps), KeyEvents(steps) + [Press(key)];
    PressKeepsPressed(start, steps, key);
    QueueConserves(start, steps);
    paste := if c.shared.enableClipboardCapture then ClipboardOffer(PressedAfter(history), key, clipboard) else [];
    offer := if c.shared.enableKeyCapture then KeyOffer(PressedAfter(history), key, e) else [];
    PasteIsHistory(history, key, clipboard);
    KeyOfferIsHistory(history, key, e);
    PressFills(c, e, key, clipboard, paste, offer);
  }

  lemma PressFills(c: Capture, e: Event, key: Key, clipboard: Option<string>, paste: seq<InputEvent>,
                   offer: seq<InputEvent>)
    requires |c.queue| <= QUEUE_CAPACITY && e.eventType == KeyPress(key)
    requires paste == if c.shared.enableClipboardCapture then ClipboardOffer(c.pressed + {key}, key, clipboard) else []
    requires offer == if c.shared.enableKeyCapture then KeyOffer(c.pressed + {key}, key, e) else []
    ensures Handle(c, e, clipboard).queue == c.queue + (paste + offer)[..Packets.Min(RoomIn(c), |paste + offer|)]
  {
    OffersFill(c.queue, c.open, paste + offer);
  }

  /** At the end of every run, with room in the queue, text is pasted exactly for V with a Ctrl key down by the
      history of the keys while clipboard capture is on, and before the key's own report. */
  lemma PasteNeedsCtrlV(start: Capture, steps: seq<Step>, e: Event, key: Key, text: string)
    requires start.pressed == {} && |start.queue| <= QUEUE_CAPACITY && e.eventType == KeyPress(key)
    requires InputCapture.Run(start, steps).HasRoom()
    ensures var c, history := InputCapture.Run(start, steps), KeyEvents(steps) + [Press(key)];
            var added := Next(c, Input(e, Some(text))).queue;
            && c.queue <= added
            && if c.shared.enableClipboardCapture && key == KeyV && ClassDown(history, ControlLeft, ControlRight)
               then |added| > |c.queue| && added[|c.queue|] == Clipboard(text)
               else forall i :: |c.queue| <= i < |added| ==> !added[i].Clipboard?
  {
    var c, history := InputCapture.Run(start, steps), KeyEvents(steps) + [Press(key)];
    var paste, offer := PressIsOffered(start, steps, e, key, Some(text));
    if c.shared.enableKeyCapture {
      KeyIsNoPaste(offer, history, key, e);
    }
    QueueConserves(start, steps);
    PasteComesFirst(c.queue, paste, offer, Packets.Min(RoomIn(c), |paste + offer|), text);
  }

  lemma KeyIsNoPaste(offer: seq<InputEvent>, history: seq<KeyEvent>, key: Key, e: Event)
    requires IsKeyOffer(offer, history, key, e)
    ensures forall x :: x in offer ==> !x.Clipboard?
  {
  }

  lemma PasteComesFirst(queue: seq<InputEvent>, paste: seq<InputEvent>, offer: seq<InputEvent>, k: nat, text: string)
    requires k <= |paste + offer| && (k == 0 ==> paste + offer == [])
    requires paste == [] || paste == [Clipboard(text)]
    requires forall x :: x in offer ==> !x.Clipboard?
    ensures var added := queue + (paste + offer)[..k];
            if paste != [] then |added| > |queue| && added[|queue|] == Clipboard(text)
            else forall i :: |queue| <= i < |added| ==> !added[i].Clipboard?
  {
    if paste == [] {
      assert paste + offer == offer;
    } else {
      assert (paste + offer)[0] == paste[0];
    }
  }

  // ---- The other events ---------------------------------------------------

  lemma FlushIsOffered(c: Capture, pos: Vec, at: int) returns (out: seq<Flush>)
    ensures out == HandleMove(c.mouse, MoveIn(c, pos, at)).out && |out| <= 1
    ensures forall flush :: flush in out ==> flush.at == at
    ensures WithFate(out, Queued) == if c.shared.enableMouseCapture && c.HasRoom() then out else []
  {
    out := HandleMove(c.mouse, MoveIn(c, pos, at)).out;
    if out != [] {
      assert out == [out[0]] && out[1..] == [];
      assert out[0].at == at && out[0].fate == MoveInFate(c);
      assert WithFate(out, Queued) == if MoveInFate(c) == Queued then out else [];
    }
  }

  function MoveInFate(c: Capture): Fate {
    if !c.shared.enableMouseCapture then Discarded else if c.HasRoom() then Queued else Refused
  }

  /** Clicks reach the queue exactly if mouse capture is on and there is room; so do the flushes of movements,
      stamped with the time of the event that flushed them and without a name; releases of keys and the wheel never
      do. */
  lemma OthersAreOffered(c: Capture, e: Event, clipboard: Option<string>)
    requires |c.queue| <= QUEUE_CAPACITY && !e.eventType.KeyPress?
    ensures var captured := c.shared.enableMouseCapture && c.open && |c.queue| < 50;
            var out := if e.eventType.MouseMove?
                       then HandleMove(c.mouse, MoveIn(c, e.eventType.pos, e.time)).out else [];
            && |out| <= 1
            && Next(c, Input(e, clipboard)).queue == c.queue +
                 if !captured then []
                 else if e.eventType.ButtonPress? || e.eventType.ButtonRelease? then [RDevEvent(e)]
                 else if out != [] then [RDevEvent(Event(e.time, None, MouseMove(out[0].delta)))]
                 else []
  {
    if e.eventType.MouseMove? {
      var out := FlushIsOffered(c, e.eventType.pos, e.time);
      if out != [] {
        assert out[1..] == [] && MoveEvents([]) == [] && MoveEvents(out) == [MoveEvent(out[0])];
      }
    }
  }

  // ---- The capture flags --------------------------------------------------

  lemma PressPublishes(c: Capture, e: Event, key: Key, clipboard: Option<string>, history: seq<KeyEvent>,
                       initial: AppState)
    requires c.pressed == PressedAfter(history) && HotKeys.FlagsMatch(c.shared, initial, history)
    requires e.eventType == KeyPress(key)
    ensures HotKeys.FlagsMatch(Handle(c, e, clipboard).shared, initial, history + [Press(key)])
  {
    var s := HotKeys.System(c.shared, HotKeys.Busy(c.shared, Press(key)), c.pressed, history);
    var longer := history + [Press(key)];
    assert DropLast(longer) == history && Last(longer) == Press(key);
    HotKeys.FinishKeepsFlags(s, key, initial);
    assert Handle(c, e, clipboard).shared == HotKeys.Next(s, HotKeys.Finish).shared;
  }

  lemma OthersPublishNothing(c: Capture, step: Step, history: seq<KeyEvent>, initial: AppState)
    requires HotKeys.FlagsMatch(c.shared, initial, history)
    requires step.Input? ==> !step.event.eventType.KeyPress?
    ensures HotKeys.FlagsMatch(Next(c, step).shared, initial,
                               history + if step.Input? then KeyEventsOf(step.event) else [])
  {
    if step.Input? && step.event.eventType.KeyRelease? {
      var e := Release(step.event.eventType.key);
      HotKeys.CountOneMore(history, e, KeyC);
      HotKeys.CountOneMore(history, e, KeyV);
      HotKeys.CountOneMore(history, e, KeyM);
    } else {
      assert history + [] == history;
    }
  }

  lemma {:induction false} FlagsAlong(c: Capture, steps: seq<Step>, history: seq<KeyEvent>, initial: AppState)
    requires c.pressed == PressedAfter(history) && HotKeys.FlagsMatch(c.shared, initial, history)
    ensures HotKeys.FlagsMatch(InputCapture.Run(c, steps).shared, initial, history + KeyEvents(steps))
    decreases |steps|
  {
    if steps == [] {
      assert history + [] == history;
    } else {
      var step := steps[0];
      var now := if step.Input? then KeyEventsOf(step.event) else [];
      StepPresses(c, step, history);
      if step.Input? && step.event.eventType.KeyPress? {
        PressPublishes(c, step.event, step.event.eventType.key, step.clipboard, history, initial);
      } else {
        OthersPublishNothing(c, step, history, initial);
      }
      FlagsAlong(Next(c, step), steps[1..], history + now, initial);
      Regroup(history, now, KeyEvents(steps[1..]));
    }
  }

  /** Along every run of the handler and the tasks around it, each capture flag is its initial value flipped once
      for each press of its key while a Ctrl and an Alt key were down. */
  lemma FlagsAreHistory(c: Capture, steps: seq<Step>)
    requires c.pressed == {}
    ensures HotKeys.FlagsMatch(InputCapture.Run(c, steps).shared, c.shared, KeyEvents(steps))
  {
    assert HotKeys.HotKeyPresses([], KeyC) == HotKeys.HotKeyPresses([], KeyV) == HotKeys.HotKeyPresses([], KeyM) == 0;
    FlagsAlong(c, steps, [], c.shared);
    assert [] + KeyEvents(steps) == KeyEvents(steps);
  }

  /** All else in the shared state is what the BLE task last wrote, or as it was. */
  predicate OnlyFlagsDiffer(a: AppState, b: AppState) {
    a == b.(enableKeyCapture := a.enableKeyCapture, enableClipboardCapture := a.enableClipboardCapture,
            enableMouseCapture := a.enableMouseCapture)
  }

  lemma PublishKeepsTheRest(pressed: set<Key>, key: Key, snapshot: AppState)
    ensures Published(pressed, key, snapshot).Some? ==>
              OnlyFlagsDiffer(Published(pressed, key, snapshot).value, snapshot)
  {
  }

  lemma InputKeepsTheRest(c: Capture, e: Event, clipboard: Option<string>)
    ensures OnlyFlagsDiffer(Handle(c, e, clipboard).shared, c.shared)
  {
    if e.eventType.KeyPress? {
      PublishKeepsTheRest(c.pressed + {e.eventType.key}, e.eventType.key, c.shared);
    }
  }
}
