/** What the radio takes of what the BLE task sends: clipboard text as a prefix, and the mouse packets. */
module Delivery {
  import opened Basics
  import opened AppModel
  import Motion
  import opened Packets
  import opened Primitives
  import opened Ecdh
  import opened BleSession

  // ---- Streams ------------------------------------------------------------

  /** The payloads the radio took. */
  function Delivered(entries: seq<Entry>): seq<EncryptedData> {
    if entries == [] then []
    else if entries[0].Sent? && entries[0].delivered then [entries[0].payload] + Delivered(entries[1..])
    else Delivered(entries[1..])
  }

  lemma SendAllStep(f: Suite, c: Context, payloads: seq<EncryptedData>, w: World, i: nat)
    requires payloads != []
    ensures var now, all := SendNow(f, c, payloads[0], w, i), SendAll(f, c, payloads, w, i);
            var later := SendAll(f, c, payloads[1..], w, i + 1);
            if now != [] && w.radio(i) then all == now + later && Delivered(all) == [payloads[0]] + Delivered(later)
            else all == now && Delivered(all) == []
  {
    var now, all := SendNow(f, c, payloads[0], w, i), SendAll(f, c, payloads, w, i);
    var later := SendAll(f, c, payloads[1..], w, i + 1);
    if now != [] && w.radio(i) {
      assert (now + later)[1..] == later;
    } else if now != [] {
      assert now[1..] == [];
    }
  }

  lemma {:induction false} DeliveredIsPrefix(f: Suite, c: Context, payloads: seq<EncryptedData>, w: World, i: nat)
    ensures Delivered(SendAll(f, c, payloads, w, i)) <= payloads
    decreases |payloads|
  {
    var sent := SendAll(f, c, payloads, w, i);
    if sent != [] {
      DeliveredIsPrefix(f, c, payloads[1..], w, i + 1);
      assert sent[1..] == if w.radio(i) then SendAll(f, c, payloads[1..], w, i + 1) else [];
      assert payloads == [payloads[0]] + payloads[1..];
    }
  }

  /** Whatever fails on the way, the device holds the first min(100k, n) characters of the sanitized clipboard text,
      where k is the number of messages it received. */
  lemma ClipboardArrivesAsPrefix(f: Suite, c: Context, text: string, w: World)
    ensures var clean, got := Sanitize(text), Delivered(SendAll(f, c, PayloadsOf(Clipboard(text)), w, 0));
            && got <= CreateKeyboardStream(clean)
            && Messages(got) == clean[..Min(CHUNK * |got|, |clean|)]
            && (|got| == |CreateKeyboardStream(clean)| ==> Messages(got) == clean)
  {
    var clean := Sanitize(text);
    var stream := CreateKeyboardStream(clean);
    DeliveredIsPrefix(f, c, stream, w, 0);
    var got := Delivered(SendAll(f, c, stream, w, 0));
    assert got == stream[..|got|];
    PrefixDelivered(clean, |got|);
  }

  // ---- What is asked for and what arrives ---------------------------------

  /** The messages an input event asks for. Text and codes come with their lengths, the clipboard in pieces of one
      hundred characters; a mouse packet has one frame, which only a movement fills. */
  function Asked(e: InputEvent): seq<EncryptedData> {
    match e
    case RDevEvent(event) =>
      (match event.eventType
       case MouseMove(pos) => [MousePacket(1, [Frame(AsI32(Round(pos.x)), AsI32(Round(pos.y)))], 0, 0, 0)]
       case ButtonPress(Left) => [MousePacket(1, [Frame(0, 0)], 1, 0, 0)]
       case ButtonPress(Right) => [MousePacket(1, [Frame(0, 0)], 0, 1, 0)]
       case ButtonPress(OtherButton) => [MousePacket(1, [Frame(0, 0)], 0, 0, 0)]
       case ButtonRelease(_) => [MousePacket(1, [Frame(0, 0)], 0, 0, 0)]
       case Wheel(_, dy) => [MousePacket(1, [Frame(0, 0)], 0, 0, WrapI32(dy))]
       case KeyPress(_) => if event.name.Some? then Typed(event.name.value) else []
       case KeyRelease(_) => if event.name.Some? then Typed(event.name.value) else [])
    case Clipboard(text) =>
      var clean := Sanitize(text);
      seq((|clean| + 99) / 100, k requires 0 <= k < (|clean| + 99) / 100 =>
        KeyboardPacket(Min(100, |clean| - 100 * k), clean[100 * k..Min(100 * k + 100, |clean|)]))
    case Keycode(codes) => [KeycodePacket(|codes| % 0x1_0000_0000, codes)]
    case ConsumerControl(code) => [ConsumerControlPacket([code], 1)]
  }

  function Typed(text: string): seq<EncryptedData> { [KeyboardPacket(|text| % 0x1_0000_0000, text)] }

  /** The messages a command asks for. */
  function AskedBy(cmd: AppCommand): seq<EncryptedData> {
    match cmd
    case SendKeyboardInput(text) => Typed(text)
    case SendMouseJiggle(enable) => [MouseJigglePacket(enable)]
    case _ => []
  }

  lemma ChunkIsAsked(clean: string, k: nat)
    requires k < |CreateKeyboardStream(clean)|
    ensures 100 * k < |clean|
    ensures CreateKeyboardStream(clean)[k]
         == KeyboardPacket(Min(100, |clean| - 100 * k), clean[100 * k..Min(100 * k + 100, |clean|)])
  {
    ChunkAt(clean, k);
  }

  lemma ClipboardIsAsked(text: string)
    ensures PayloadsOf(Clipboard(text)) == Asked(Clipboard(text))
  {
    var clean := Sanitize(text);
    var sent, asked := CreateKeyboardStream(clean), Asked(Clipboard(text));
    ChunkCount(clean);
    assert |sent| == |asked|;
    forall k | 0 <= k < |sent|
      ensures sent[k] == asked[k]
    {
      ChunkIsAsked(clean, k);
    }
  }

  lemma NothingMoves()
    ensures AsI32(Round(0.0)) == 0
  {
    RoundIsExact(0.0, 0);
  }

  /** What is sent for an event or a command is what it asks for. */
  lemma AskedIsSent(e: InputEvent, cmd: AppCommand)
    ensures PayloadsOf(e) == Asked(e) && CommandPayloads(cmd) == AskedBy(cmd)
  {
    NothingMoves();
    if e.Clipboard? {
      ClipboardIsAsked(e.text);
    }
  }

  /** The scroll distance is the one asked for, up to multiples of two to the thirty-second. */
  lemma WrapKeepsLowBits(n: int)
    ensures I32_MIN <= WrapI32(n) <= I32_MAX && (WrapI32(n) - n) % 0x1_0000_0000 == 0
  {
    var m := n - I32_MIN;
    assert WrapI32(n) - n == -(m / 0x1_0000_0000) * 0x1_0000_0000;
  }

  /** The message is encrypted under the active session's key and taken by the radio. */
  predicate Passes(f: Suite, c: Context, p: EncryptedData, w: World, i: nat) {
    && c.active.Some? && c.active.value.aesKey.Some? && w.radio(i)
    && f.seal(c.active.value.aesKey.value, w.nonce(i), f.encodePayload(p)).Some?
  }

  /** How many messages pass before the first that does not. */
  function PassCount(f: Suite, c: Context, ps: seq<EncryptedData>, w: World, i: nat): nat
    decreases |ps|
  {
    if ps == [] || !Passes(f, c, ps[0], w, i) then 0 else 1 + PassCount(f, c, ps[1..], w, i + 1)
  }

  /** Exactly the messages before the first that does not pass arrive. */
  lemma {:induction false} ArrivesUpToFailure(f: Suite, c: Context, ps: seq<EncryptedData>, w: World, i: nat)
    ensures PassCount(f, c, ps, w, i) <= |ps|
    ensures Delivered(SendAll(f, c, ps, w, i)) == ps[..PassCount(f, c, ps, w, i)]
    decreases |ps|
  {
    if ps != [] {
      SendAllStep(f, c, ps, w, i);
      ArrivesUpToFailure(f, c, ps[1..], w, i + 1);
      var k := PassCount(f, c, ps[1..], w, i + 1);
      assert [ps[0]] + ps[1..][..k] == ps[..1 + k];
    }
  }

  /** What arrives along a run: of every input event within a session, and of every command, what it asks for up to the
      first message that does not pass. */
  function ArrivesAlong(f: Suite, s: Service, steps: seq<Step>): seq<EncryptedData>
    decreases |steps|
  {
    if steps == [] then [] else ArrivesNow(f, s, steps[0]) + ArrivesAlong(f, Next(f, s, steps[0]), steps[1..])
  }

  function ArrivesNow(f: Suite, s: Service, step: Step): seq<EncryptedData> {
    var asked := if s.stopped then []
                 else if step.Input? && s.running then Asked(step.event)
                 else if step.Command? then AskedBy(step.cmd)
                 else [];
    if step.Input? || step.Command? then UpTo(asked, PassCount(f, s.ctx, asked, step.w, 0)) else []
  }

  function UpTo<T>(xs: seq<T>, k: nat): seq<T> { if k <= |xs| then xs[..k] else xs }

  lemma StepArrives(f: Suite, s: Service, step: Step)
    ensures Delivered(Next(f, s, step).log) == Delivered(s.log) + ArrivesNow(f, s, step)
  {
    if !s.stopped && step.Input? && s.running {
      AskedIsSent(step.event, KillService);
      ArrivesUpToFailure(f, s.ctx, Asked(step.event), step.w, 0);
      DeliveredAppend(s.log, SendAll(f, s.ctx, Asked(step.event), step.w, 0));
    } else if !s.stopped && step.Command? && AskedBy(step.cmd) != [] {
      AskedIsSent(Keycode([]), step.cmd);
      ArrivesUpToFailure(f, s.ctx, AskedBy(step.cmd), step.w, 0);
      DeliveredAppend(s.log, SendAll(f, s.ctx, AskedBy(step.cmd), step.w, 0));
    } else {
      OtherStepArrives(f, s, step);
    }
  }

  lemma OtherStepArrives(f: Suite, s: Service, step: Step)
    requires s.stopped || !s.running || !step.Input?
    requires s.stopped || !step.Command? || AskedBy(step.cmd) == []
    ensures Delivered(Next(f, s, step).log) == Delivered(s.log) && ArrivesNow(f, s, step) == []
  {
    var t := Next(f, s, step);
    if step.Command? {
      AskedIsSent(Keycode([]), step.cmd);
      if !s.stopped {
        CommandSendsNothing(f, s, step.cmd, step.w);
      }
    } else if step.Notify? && s.deviceId.Some? {
      ResponseSendsNothing(f, s, s.deviceId.value, step.response);
    }
    assert t.log == s.log + t.log[|s.log|..];
    NothingDelivered(t.log[|s.log|..]);
    DeliveredAppend(s.log, t.log[|s.log|..]);
  }

  lemma {:induction false} NothingDelivered(more: seq<Entry>)
    requires forall e :: e in more ==> !e.Sent?
    ensures Delivered(more) == []
  {
    if more != [] {
      assert more[0] in more && forall e :: e in more[1..] ==> e in more;
      NothingDelivered(more[1..]);
    }
  }

  /** Along every run the radio took exactly what was asked for and passed, in order: key names, key codes,
      clipboard text, media keys, mouse packets and commands. */
  lemma {:induction false} AskedArrives(f: Suite, s: Service, steps: seq<Step>)
    ensures Delivered(Run(f, s, steps).log) == Delivered(s.log) + ArrivesAlong(f, s, steps)
    decreases |steps|
  {
    if steps == [] {
      assert Delivered(s.log) + [] == Delivered(s.log);
    } else {
      var n := Next(f, s, steps[0]);
      StepArrives(f, s, steps[0]);
      AskedArrives(f, n, steps[1..]);
      Regroup(Delivered(s.log), ArrivesNow(f, s, steps[0]), ArrivesAlong(f, n, steps[1..]));
    }
  }

  // ---- Mouse buttons ------------------------------------------------------

  datatype Buttons = Buttons(left: bool, right: bool)

  /** The buttons the device holds down after these payloads, given that every mouse packet sets both. */
  function Held(before: Buttons, payloads: seq<EncryptedData>): Buttons {
    if payloads == [] then before
    else
      var last := Last(payloads);
      if last.MousePacket? then Buttons(last.lClick == 1, last.rClick == 1) else Held(before, DropLast(payloads))
  }

  predicate IsMouse(e: InputEvent) {
    e.RDevEvent? && !e.event.eventType.KeyPress? && !e.event.eventType.KeyRelease?
  }

  /** The buttons the packet of a mouse event sets: only a press holds one down, and a release or a mere movement
      lets go of both. */
  function Wanted(e: InputEvent): Buttons
    requires IsMouse(e)
  {
    var pressed := if e.event.eventType.ButtonPress? then Some(e.event.eventType.button) else None;
    Buttons(pressed == Some(Left), pressed == Some(Right))
  }

  lemma {:induction false} HeldAppend(before: Buttons, a: seq<EncryptedData>, b: seq<EncryptedData>)
    ensures Held(before, a + b) == Held(Held(before, a), b)
    decreases |b|
  {
    if b == [] {
      assert a + b == a;
    } else {
      assert DropLast(a + b) == a + DropLast(b) && Last(a + b) == Last(b);
      HeldAppend(before, a, DropLast(b));
    }
  }

  lemma {:induction false} DeliveredAppend(a: seq<Entry>, b: seq<Entry>)
    ensures Delivered(a + b) == Delivered(a) + Delivered(b)
  {
    if a == [] {
      assert a + b == b;
    } else {
      assert (a + b)[1..] == a[1..] + b;
      DeliveredAppend(a[1..], b);
    }
  }

  function MousePackets(payloads: seq<EncryptedData>): seq<EncryptedData> {
    if payloads == [] then []
    else (if payloads[0].MousePacket? then [payloads[0]] else []) + MousePackets(payloads[1..])
  }

  lemma {:induction false} MousePacketsAppend(a: seq<EncryptedData>, b: seq<EncryptedData>)
    ensures MousePackets(a + b) == MousePackets(a) + MousePackets(b)
  {
    if a == [] {
      assert a + b == b;
    } else {
      assert (a + b)[1..] == a[1..] + b;
      MousePacketsAppend(a[1..], b);
    }
  }

  lemma {:induction false} NoMousePackets(payloads: seq<EncryptedData>)
    requires forall p :: p in payloads ==> !p.MousePacket?
    ensures MousePackets(payloads) == []
  {
    if payloads != [] {
      assert payloads[0] in payloads && forall p :: p in payloads[1..] ==> p in payloads;
      NoMousePackets(payloads[1..]);
    }
  }

  /** Only mouse packets touch the buttons. */
  lemma {:induction false} HeldByMousePackets(before: Buttons, payloads: seq<EncryptedData>)
    ensures Held(before, payloads) == Held(before, MousePackets(payloads))
    decreases |payloads|
  {
    if payloads != [] {
      var ps, last := DropLast(payloads), Last(payloads);
      assert payloads == ps + [last] && [last][1..] == [];
      HeldByMousePackets(before, ps);
      MousePacketsAppend(ps, [last]);
      HeldAppend(before, MousePackets(ps), MousePackets([last]));
    }
  }

  /** The mouse packets the radio took. */
  function MouseDelivered(log: seq<Entry>): seq<EncryptedData> { MousePackets(Delivered(log)) }

  lemma MouseDeliveredAppend(a: seq<Entry>, b: seq<Entry>)
    ensures MouseDelivered(a + b) == MouseDelivered(a) + MouseDelivered(b)
  {
    DeliveredAppend(a, b);
    MousePacketsAppend(Delivered(a), Delivered(b));
  }

  lemma {:induction false} DeliveredWasSent(log: seq<Entry>)
    ensures forall p :: p in Delivered(log) ==> exists e :: e in log && e.Sent? && e.payload == p
  {
    if log != [] {
      DeliveredWasSent(log[1..]);
      assert log[0] in log && forall e :: e in log[1..] ==> e in log;
    }
  }

  /** Entries that carry no mouse packet add none. */
  lemma NoMouseDelivered(log: seq<Entry>, more: seq<Entry>)
    requires forall e :: e in more && e.Sent? ==> !e.payload.MousePacket?
    ensures MouseDelivered(log + more) == MouseDelivered(log)
  {
    MouseDeliveredAppend(log, more);
    DeliveredWasSent(more);
    NoMousePackets(Delivered(more));
  }

  predicate IsMouseStep(step: Step) { step.Input? && IsMouse(step.event) }

  /** The one packet of a mouse event is encrypted and taken by the radio. */
  predicate MouseTaken(f: Suite, s: Service, e: InputEvent, w: World)
    requires IsMouse(e)
  {
    !s.stopped && s.running && SendNow(f, s.ctx, PayloadsOf(e)[0], w, 0) != [] && w.radio(0)
  }

  /** The packet of a mouse event, which sets the buttons the event asks for. */
  lemma OneMousePacket(before: Buttons, e: InputEvent)
    requires IsMouse(e)
    ensures |PayloadsOf(e)| == 1 && PayloadsOf(e)[0].MousePacket?
    ensures Held(before, PayloadsOf(e)) == Wanted(e)
  {
  }

  lemma SendOne(f: Suite, c: Context, payload: EncryptedData, w: World)
    ensures Delivered(SendAll(f, c, [payload], w, 0))
         == if SendNow(f, c, payload, w, 0) != [] && w.radio(0) then [payload] else []
  {
    SendAllStep(f, c, [payload], w, 0);
    assert [payload][1..] == [] && SendAll(f, c, [], w, 1) == [];
  }

  lemma MouseStepSends(f: Suite, s: Service, e: InputEvent, w: World)
    requires IsMouse(e)
    ensures MouseDelivered(Next(f, s, Input(e, w)).log)
         == MouseDelivered(s.log) + if MouseTaken(f, s, e, w) then PayloadsOf(e) else []
  {
    if !s.stopped && s.running {
      OneMousePacket(Buttons(false, false), e);
      var payloads := PayloadsOf(e);
      assert payloads == [payloads[0]] && payloads[1..] == [];
      SendOne(f, s.ctx, payloads[0], w);
      MouseDeliveredAppend(s.log, SendAll(f, s.ctx, payloads, w, 0));
      assert MousePackets(payloads) == payloads && MousePackets([]) == [];
    }
  }

  lemma MouseStepHolds(f: Suite, s: Service, e: InputEvent, w: World, before: Buttons)
    requires IsMouse(e)
    ensures Held(before, Delivered(Next(f, s, Input(e, w)).log))
         == if MouseTaken(f, s, e, w) then Wanted(e) else Held(before, Delivered(s.log))
  {
    var t := Next(f, s, Input(e, w));
    MouseStepSends(f, s, e, w);
    HeldByMousePackets(before, Delivered(s.log));
    HeldByMousePackets(before, Delivered(t.log));
    if MouseTaken(f, s, e, w) {
      OneMousePacket(Held(before, MouseDelivered(s.log)), e);
      HeldAppend(before, MouseDelivered(s.log), PayloadsOf(e));
    } else {
      assert MouseDelivered(t.log) == MouseDelivered(s.log) + [] == MouseDelivered(s.log);
    }
  }

  lemma ResponseSendsNothing(f: Suite, s: Service, id: string, r: Response)
    ensures var t := OnResponse(f, s, id, r);
            s.log <= t.log && forall i :: |s.log| <= i < |t.log| ==> !t.log[i].Sent?
  {
  }

  lemma CommandSendsNothing(f: Suite, s: Service, cmd: AppCommand, w: World)
    requires CommandPayloads(cmd) == []
    ensures var t := OnCommand(f, s, cmd, w);
            s.log <= t.log && forall i :: |s.log| <= i < |t.log| ==> !t.log[i].Sent?
  {
    assert s.log <= OnCommand(f, s, cmd, w).log;
  }

  lemma OtherStepSends(f: Suite, s: Service, step: Step)
    requires !IsMouseStep(step)
    ensures MouseDelivered(Next(f, s, step).log) == MouseDelivered(s.log)
  {
    if step.Input? {
      SendAllSends(f, s.ctx, PayloadsOf(step.event), step.w, 0);
      NoMouseDelivered(s.log, SendAll(f, s.ctx, PayloadsOf(step.event), step.w, 0));
    } else if step.Command? && CommandPayloads(step.cmd) != [] {
      SendAllSends(f, s.ctx, CommandPayloads(step.cmd), step.w, 0);
      NoMouseDelivered(s.log, SendAll(f, s.ctx, CommandPayloads(step.cmd), step.w, 0));
    } else {
      var t := Next(f, s, step);
      if step.Command? {
        CommandSendsNothing(f, s, step.cmd, step.w);
      } else if step.Notify? && s.deviceId.Some? {
        ResponseSendsNothing(f, s, s.deviceId.value, step.response);
      }
      assert t.log == s.log + t.log[|s.log|..];
      NoMouseDelivered(s.log, t.log[|s.log|..]);
    }
  }

  lemma OtherStepHolds(f: Suite, s: Service, step: Step, before: Buttons)
    requires !IsMouseStep(step)
    ensures Held(before, Delivered(Next(f, s, step).log)) == Held(before, Delivered(s.log))
  {
    OtherStepSends(f, s, step);
    HeldByMousePackets(before, Delivered(s.log));
    HeldByMousePackets(before, Delivered(Next(f, s, step).log));
  }

  lemma {:induction false} OtherStepsHold(f: Suite, s: Service, steps: seq<Step>, before: Buttons)
    requires forall step :: step in steps ==> !IsMouseStep(step)
    ensures Held(before, Delivered(Run(f, s, steps).log)) == Held(before, Delivered(s.log))
    decreases |steps|
  {
    if steps != [] {
      OtherStepHolds(f, s, steps[0], before);
      OtherStepsHold(f, Next(f, s, steps[0]), steps[1..], before);
    }
  }

  /** After any run whose last mouse event is `e`, the device holds the buttons `e` asks for if the packet was taken,
      and otherwise those it held before. So it holds what the last mouse event asks for exactly if the packet was
      taken or it held just that already. */
  lemma ButtonsFollowLastMouseEvent(f: Suite, s: Service, e: InputEvent, w: World, rest: seq<Step>, before: Buttons)
    requires IsMouse(e) && forall step :: step in rest ==> !IsMouseStep(step)
    ensures var held := Held(before, Delivered(s.log));
            var now := Held(before, Delivered(Run(f, s, [Input(e, w)] + rest).log));
            && now == (if MouseTaken(f, s, e, w) then Wanted(e) else held)
            && (now == Wanted(e) <==> MouseTaken(f, s, e, w) || held == Wanted(e))
  {
    assert ([Input(e, w)] + rest)[1..] == rest;
    MouseStepHolds(f, s, e, w, before);
    OtherStepsHold(f, Next(f, s, Input(e, w)), rest, before);
  }

  lemma TwoMouseEvents(f: Suite, s: Service, a: InputEvent, wa: World, b: InputEvent, wb: World, before: Buttons)
    requires IsMouse(a) && IsMouse(b) && MouseTaken(f, s, a, wa)
    ensures Held(before, Delivered(Run(f, s, [Input(a, wa), Input(b, wb)]).log))
         == if MouseTaken(f, Next(f, s, Input(a, wa)), b, wb) then Wanted(b) else Wanted(a)
  {
    var t := Next(f, s, Input(a, wa));
    var steps := [Input(a, wa), Input(b, wb)];
    assert steps[1..] == [Input(b, wb)] && [Input(b, wb)][1..] == [];
    assert Run(f, s, steps) == Run(f, t, steps[1..]) == Next(f, t, Input(b, wb));
    MouseStepHolds(f, s, a, wa, before);
    MouseStepHolds(f, t, b, wb, before);
  }

  /** A release that the radio refuses leaves the button down. */
  lemma RefusedReleaseKeepsButton(f: Suite, s: Service, at: int, press: World, release: World, before: Buttons)
    requires MouseTaken(f, s, RDevEvent(Event(at, None, ButtonPress(Left))), press) && !release.radio(0)
    ensures var down := Input(RDevEvent(Event(at, None, ButtonPress(Left))), press);
            var up := Input(RDevEvent(Event(at, None, ButtonRelease(Left))), release);
            Held(before, Delivered(Run(f, s, [down, up]).log)) == Buttons(true, false)
  {
    TwoMouseEvents(f, s, RDevEvent(Event(at, None, ButtonPress(Left))), press,
                   RDevEvent(Event(at, None, ButtonRelease(Left))), release, before);
  }

  /** A movement that arrives while a button is held lets go of it: nothing can be dragged. */
  lemma MovementReleasesButton(f: Suite, s: Service, at: int, pos: Motion.Vec, press: World, move: World,
                               before: Buttons)
    requires MouseTaken(f, s, RDevEvent(Event(at, None, ButtonPress(Left))), press)
    requires MouseTaken(f, Next(f, s, Input(RDevEvent(Event(at, None, ButtonPress(Left))), press)),
                        RDevEvent(Event(at, None, MouseMove(pos))), move)
    ensures var down := Input(RDevEvent(Event(at, None, ButtonPress(Left))), press);
            var drag := Input(RDevEvent(Event(at, None, MouseMove(pos))), move);
            Held(before, Delivered(Run(f, s, [down, drag]).log)) == Buttons(false, false)
  {
    TwoMouseEvents(f, s, RDevEvent(Event(at, None, ButtonPress(Left))), press,
                   RDevEvent(Event(at, None, MouseMove(pos))), move, before);
  }
}
