/** The hot-key handler reads the shared state when an event begins and publishes a whole copy when it ends;
    the BLE task writes its own fields of that state at any moment in between. */
module HotKeys {
  import opened Basics
  import opened HidMap
  import opened AppModel
  import opened Keyboard

  // The handler is between events, or holds the snapshot it read for the current one.
  datatype Phase = Idle | Busy(snapshot: AppState, event: KeyEvent)

  datatype System = System(shared: AppState, phase: Phase, pressed: set<Key>, history: seq<KeyEvent>)

  /** The atomic steps; one that is not enabled changes nothing. */
  datatype Step =
    | Begin(event: KeyEvent)
    | Finish
    | BleWrite(devices: seq<Device>, connectedDevice: Option<Device>)

  function Next(s: System, step: Step): System {
    match step
    case Begin(e) => if s.phase.Idle? then s.(phase := Busy(s.shared, e)) else s
    case BleWrite(devices, connected) =>
      s.(shared := s.shared.(devices := devices, connectedDevice := connected))
    case Finish =>
      if s.phase.Idle? then s
      else
        var e := s.phase.event;
        var pressed := Apply(s.pressed, e);
        var published := if e.Press? then Published(pressed, e.key, s.phase.snapshot) else None;
        System(if published.Some? then published.value else s.shared, Idle, pressed, s.history + [e])
  }

  function Run(s: System, steps: seq<Step>): System
    decreases |steps|
  {
    if steps == [] then s else Run(Next(s, steps[0]), steps[1..])
  }

  function Start(shared: AppState): System { System(shared, Idle, {}, []) }

  // ---- Counting presses ---------------------------------------------------

  /** The last event of the history presses `target` while a Ctrl and an Alt key are down. */
  ghost predicate EndsInHotKey(history: seq<KeyEvent>, target: Key) {
    && history != [] && Last(history) == Press(target)
    && ClassDown(history, ControlLeft, ControlRight)
    && ClassDown(history, Alt, AltGr)
  }

  ghost function HotKeyPresses(history: seq<KeyEvent>, target: Key): nat {
    if history == [] then 0
    else HotKeyPresses(DropLast(history), target) + if EndsInHotKey(history, target) then 1 else 0
  }

  ghost predicate FlippedBy(now: bool, initially: bool, presses: nat) {
    now == if presses % 2 == 0 then initially else !initially
  }

  ghost predicate FlagsMatch(state: AppState, initial: AppState, history: seq<KeyEvent>) {
    && FlippedBy(state.enableKeyCapture, initial.enableKeyCapture, HotKeyPresses(history, KeyC))
    && FlippedBy(state.enableClipboardCapture, initial.enableClipboardCapture, HotKeyPresses(history, KeyV))
    && FlippedBy(state.enableMouseCapture, initial.enableMouseCapture, HotKeyPresses(history, KeyM))
  }

  ghost predicate Inv(s: System, initial: AppState) {
    && s.pressed == PressedAfter(s.history)
    && FlagsMatch(s.shared, initial, s.history)
    && (s.phase.Busy? ==> FlagsMatch(s.phase.snapshot, initial, s.history))
  }

  lemma HotKeyIsCounted(history: seq<KeyEvent>, target: Key)
    requires history != []
    ensures EndsInHotKey(history, target) <==>
            Last(history).Press? && HotKey(PressedAfter(history), Last(history).key, target)
  {
    PressedIsDown(history, ControlLeft);
    PressedIsDown(history, ControlRight);
    PressedIsDown(history, Alt);
    PressedIsDown(history, AltGr);
  }

  lemma CountOneMore(history: seq<KeyEvent>, e: KeyEvent, target: Key)
    ensures var longer := history + [e];
            HotKeyPresses(longer, target) == HotKeyPresses(history, target) +
              if e.Press? && HotKey(PressedAfter(longer), e.key, target) then 1 else 0
  {
    var longer := history + [e];
    assert DropLast(longer) == history && Last(longer) == e;
    HotKeyIsCounted(longer, target);
  }

  lemma FlipOnce(now: bool, initially: bool, presses: nat, hot: bool)
    requires FlippedBy(now, initially, presses)
    ensures FlippedBy(hot != now, initially, presses + if hot then 1 else 0)
  {
  }

  lemma OneMoreFlip(history: seq<KeyEvent>, e: KeyEvent, target: Key, flag: bool, initially: bool)
    requires FlippedBy(flag, initially, HotKeyPresses(history, target))
    ensures var hot := e.Press? && HotKey(PressedAfter(history + [e]), e.key, target);
            FlippedBy(hot != flag, initially, HotKeyPresses(history + [e], target))
  {
    var hot := e.Press? && HotKey(PressedAfter(history + [e]), e.key, target);
    CountOneMore(history, e, target);
    FlipOnce(flag, initially, HotKeyPresses(history, target), hot);
  }

  predicate SameFlags(a: AppState, b: AppState) {
    && a.enableKeyCapture == b.enableKeyCapture
    && a.enableClipboardCapture == b.enableClipboardCapture
    && a.enableMouseCapture == b.enableMouseCapture
  }

  lemma FlagsAreDetermined(a: AppState, b: AppState, initial: AppState, history: seq<KeyEvent>)
    requires FlagsMatch(a, initial, history) && FlagsMatch(b, initial, history)
    ensures SameFlags(a, b)
  {
  }

  /** Publishing a snapshot with current flags flips exactly the flag of the hot key, if any. */
  lemma FinishFlipsHotKey(s: System, key: Key)
    requires s.phase.Busy? && s.phase.event == Press(key)
    requires SameFlags(s.phase.snapshot, s.shared)
    ensures var pressed, now := s.pressed + {key}, Next(s, Finish).shared;
            && now.enableKeyCapture == (HotKey(pressed, key, KeyC) != s.shared.enableKeyCapture)
            && now.enableClipboardCapture == (HotKey(pressed, key, KeyV) != s.shared.enableClipboardCapture)
            && now.enableMouseCapture == (HotKey(pressed, key, KeyM) != s.shared.enableMouseCapture)
  {
  }

  lemma FinishKeepsFlags(s: System, key: Key, initial: AppState)
    requires s.phase.Busy? && s.phase.event == Press(key)
    requires FlagsMatch(s.shared, initial, s.history) && SameFlags(s.phase.snapshot, s.shared)
    requires PressedAfter(s.history + [s.phase.event]) == s.pressed + {key}
    ensures FlagsMatch(Next(s, Finish).shared, initial, s.history + [s.phase.event])
  {
    FinishFlipsHotKey(s, key);
    OneMoreFlip(s.history, s.phase.event, KeyC, s.shared.enableKeyCapture, initial.enableKeyCapture);
    OneMoreFlip(s.history, s.phase.event, KeyV, s.shared.enableClipboardCapture, initial.enableClipboardCapture);
    OneMoreFlip(s.history, s.phase.event, KeyM, s.shared.enableMouseCapture, initial.enableMouseCapture);
  }

  lemma StepKeepsInv(s: System, step: Step, initial: AppState)
    requires Inv(s, initial)
    ensures Inv(Next(s, step), initial)
  {
    if step.Finish? && s.phase.Busy? {
      var e := s.phase.event;
      var longer := s.history + [e];
      assert DropLast(longer) == s.history && Last(longer) == e;
      assert PressedAfter(longer) == Apply(s.pressed, e);
      if e.Press? {
        FlagsAreDetermined(s.phase.snapshot, s.shared, initial, s.history);
        FinishKeepsFlags(s, e.key, initial);
      } else {
        CountOneMore(s.history, e, KeyC);
        CountOneMore(s.history, e, KeyV);
        CountOneMore(s.history, e, KeyM);
      }
    }
  }

  lemma {:induction false} RunKeepsInv(s: System, steps: seq<Step>, initial: AppState)
    requires Inv(s, initial)
    ensures Inv(Run(s, steps), initial)
    decreases |steps|
  {
    if steps != [] {
      StepKeepsInv(s, steps[0], initial);
      RunKeepsInv(Next(s, steps[0]), steps[1..], initial);
    }
  }

  /** Under every interleaving each capture flag is its initial value flipped once for each press of its hot key,
      although every publish overwrites the whole state with a copy that may be stale. */
  lemma FlagsCountHotKeys(initial: AppState, steps: seq<Step>)
    ensures var end := Run(Start(initial), steps);
            FlagsMatch(end.shared, initial, end.history)
  {
    assert HotKeyPresses([], KeyC) == HotKeyPresses([], KeyV) == HotKeyPresses([], KeyM) == 0;
    RunKeepsInv(Start(initial), steps, initial);
  }

  // ---- The BLE task's fields ----------------------------------------------

  predicate SameBleFields(a: AppState, b: AppState) {
    a.devices == b.devices && a.connectedDevice == b.connectedDevice
  }

  /** With these keys pressed before it, the event is a press of one of the three hot keys. */
  predicate IsHotKeyPress(pressed: set<Key>, e: KeyEvent) {
    && e.Press? && (e.key == KeyC || e.key == KeyV || e.key == KeyM)
    && CtrlDown(Apply(pressed, e)) && AltDown(Apply(pressed, e))
  }

  predicate HandlesHotKey(s: System) { s.phase.Busy? && IsHotKeyPress(s.pressed, s.phase.event) }

  /** A publish puts the snapshot's fields in place of what the BLE task wrote; other keys publish nothing. */
  lemma FinishLeaves(s: System)
    requires s.phase.Busy?
    ensures SameBleFields(Next(s, Finish).shared, if HandlesHotKey(s) then s.phase.snapshot else s.shared)
  {
  }

  /** So the BLE task's fields need not survive: a connection recorded while Ctrl+Alt+C is being handled is
      forgotten again, and only the flag has changed. */
  lemma ConnectionCanBeForgotten(s: System, devices: seq<Device>, d: Device)
    requires s.phase.Idle? && CtrlDown(s.pressed) && AltDown(s.pressed)
    ensures Run(s, [Begin(Press(KeyC)), BleWrite(devices, Some(d)), Finish]).shared
         == s.shared.(enableKeyCapture := !s.shared.enableKeyCapture)
  {
    var steps := [Begin(Press(KeyC)), BleWrite(devices, Some(d)), Finish];
    assert steps[1..] == [BleWrite(devices, Some(d)), Finish];
    assert steps[1..][1..] == [Finish] && steps[1..][1..][1..] == [];
    var read := Next(s, steps[0]);
    var written := Next(read, steps[1]);
    assert Run(s, steps) == Run(read, steps[1..]) == Run(written, [Finish]) == Next(written, Finish);
  }

  function LastConnection(initially: Option<Device>, steps: seq<Step>): Option<Device>
    decreases |steps|
  {
    if steps == [] then initially
    else LastConnection(if steps[0].BleWrite? then steps[0].connectedDevice else initially, steps[1..])
  }

  function LastDevices(initially: seq<Device>, steps: seq<Step>): seq<Device>
    decreases |steps|
  {
    if steps == [] then initially
    else LastDevices(if steps[0].BleWrite? then steps[0].devices else initially, steps[1..])
  }

  lemma {:induction false} RunAppend(s: System, a: seq<Step>, b: seq<Step>)
    ensures Run(s, a + b) == Run(Run(s, a), b)
    decreases |a|
  {
    if a == [] {
      assert a + b == b;
    } else {
      assert (a + b)[1..] == a[1..] + b;
      RunAppend(Next(s, a[0]), a[1..], b);
    }
  }

  /** Until the event has been handled, only the BLE task's writes take effect. */
  lemma {:induction false} WhileHandling(s: System, during: seq<Step>)
    requires s.phase.Busy? && forall step :: step in during ==> !step.Finish?
    ensures Run(s, during) == s.(shared := s.shared.(
              devices := LastDevices(s.shared.devices, during),
              connectedDevice := LastConnection(s.shared.connectedDevice, during)))
    decreases |during|
  {
    if during != [] {
      assert during[0] in during && forall step :: step in during[1..] ==> step in during;
      WhileHandling(Next(s, during[0]), during[1..]);
    }
  }

  /** Handling an event from its read to its publish, whatever the BLE task writes in between: each field ends up as the
      BLE task last wrote it exactly if the event is no hot key, or those writes left the field as it had been. */
  lemma HandlingKeepsWrites(s: System, e: KeyEvent, during: seq<Step>)
    requires s.phase.Idle? && forall step :: step in during ==> !step.Finish?
    ensures var end := Run(s, [Begin(e)] + during + [Finish]).shared;
            var connected := LastConnection(s.shared.connectedDevice, during);
            var devices := LastDevices(s.shared.devices, during);
            && (end.connectedDevice == connected
                <==> !IsHotKeyPress(s.pressed, e) || connected == s.shared.connectedDevice)
            && (end.devices == devices <==> !IsHotKeyPress(s.pressed, e) || devices == s.shared.devices)
  {
    var read := Next(s, Begin(e));
    assert [Begin(e)][1..] == [] && [Finish][1..] == [];
    assert Run(s, [Begin(e)]) == read;
    RunAppend(s, [Begin(e)] + during, [Finish]);
    RunAppend(s, [Begin(e)], during);
    WhileHandling(read, during);
    var written := Run(read, during);
    assert Run(written, [Finish]) == Next(written, Finish);
    FinishLeaves(written);
  }

  ghost predicate NoWriteDuringHotKey(s: System, steps: seq<Step>)
    decreases |steps|
  {
    steps == [] ||
    (&& (HandlesHotKey(s) ==> !steps[0].BleWrite?)
     && NoWriteDuringHotKey(Next(s, steps[0]), steps[1..]))
  }

  /** A hot key being handled has read the connection that still stands. */
  predicate SnapshotStands(s: System) {
    HandlesHotKey(s) ==> s.phase.snapshot.connectedDevice == s.shared.connectedDevice
  }

  lemma StepKeepsConnection(s: System, step: Step)
    requires SnapshotStands(s) && (HandlesHotKey(s) ==> !step.BleWrite?)
    ensures SnapshotStands(Next(s, step))
    ensures Next(s, step).shared.connectedDevice
         == if step.BleWrite? then step.connectedDevice else s.shared.connectedDevice
  {
    if step.Finish? && s.phase.Busy? {
      FinishLeaves(s);
    }
  }

  /** As long as the BLE task never writes while a hot key is being handled, its last write stands. */
  lemma {:induction false} ConnectionIsLastWritten(s: System, steps: seq<Step>)
    requires SnapshotStands(s) && NoWriteDuringHotKey(s, steps)
    ensures Run(s, steps).shared.connectedDevice == LastConnection(s.shared.connectedDevice, steps)
    decreases |steps|
  {
    if steps != [] {
      StepKeepsConnection(s, steps[0]);
      ConnectionIsLastWritten(Next(s, steps[0]), steps[1..]);
    }
  }
}
