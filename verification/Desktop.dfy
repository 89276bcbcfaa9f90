/** From the input hook to the device: the handler, its queue, the BLE task and the radio in one system, with what
    the device makes of the mouse. */
module Desktop {
  import opened Basics
  import opened AppModel
  import opened HidMap
  import opened Motion
  import opened Pointer
  import opened Packets
  import opened Primitives
  import opened Delivery
  import InputCapture
  import BleSession

  /** The handler and the BLE task, which share the queue and the application state; the rest is memory of the past,
      which no operation reads. */
  datatype Desktop = Desktop(
    capture: InputCapture.Capture,
    service: BleSession.Service,
    flushed: seq<Flush>,        // what the accumulator gave out
    served: Vec,                // the movements other tasks put into the queue, added up
    clicks: seq<EventType>,     // the mouse buttons pressed and released by the user
    arrived: seq<InputEvent>,   // the mouse events whose packet the radio took
    missed: seq<InputEvent>)    // the mouse events taken from the queue whose packet it did not take

  /** Input, an event of another task, the BLE task taking one event from the queue, or its turn on a notification or
      a command. */
  datatype Step =
    | Happen(event: Event, clipboard: Option<string>)
    | Enqueue(e: InputEvent)
    | Take(w: BleSession.World)
    | Serve(step: BleSession.Step)

  function PosOf(e: InputEvent): Vec { if InputCapture.IsMove(e) then e.event.eventType.pos else ZERO }

  predicate IsClick(t: EventType) { t.ButtonPress? || t.ButtonRelease? }

  function OnInput(d: Desktop, e: Event, clipboard: Option<string>): Desktop {
    var capture := InputCapture.Handle(d.capture, e, clipboard);
    var out := if e.eventType.MouseMove?
               then HandleMove(d.capture.mouse, InputCapture.MoveIn(d.capture, e.eventType.pos, e.time)).out else [];
    d.(capture := capture,
       service := d.service.(app := capture.shared),
       flushed := d.flushed + out,
       clicks := d.clicks + if IsClick(e.eventType) then [e.eventType] else [])
  }

  predicate CanTake(d: Desktop) { d.service.running && !d.service.stopped && d.capture.queue != [] }

  function OnTake(f: Suite, d: Desktop, w: BleSession.World): Desktop
    requires CanTake(d)
  {
    var e := d.capture.queue[0];
    var taken := d.(capture := d.capture.(queue := d.capture.queue[1..]),
                    service := BleSession.Next(f, d.service, BleSession.Input(e, w)));
    if !IsMouse(e) then taken
    else if MouseTaken(f, d.service, e, w) then taken.(arrived := d.arrived + [e])
    else taken.(missed := d.missed + [e])
  }

  /** A task that has died no longer receives: the queue is closed. */
  function OnServe(f: Suite, d: Desktop, step: BleSession.Step): Desktop {
    if !step.Notify? && !step.Command? then d
    else
      var service := BleSession.Next(f, d.service, step);
      d.(service := service,
         capture := d.capture.(shared := service.app, open := d.capture.open && !service.stopped))
  }

  function Next(f: Suite, d: Desktop, step: Step): Desktop {
    match step
    case Happen(e, clipboard) => OnInput(d, e, clipboard)
    case Enqueue(e) =>
      if d.capture.HasRoom()
      then d.(capture := d.capture.(queue := d.capture.queue + [e]), served := d.served.Plus(PosOf(e)))
      else d
    case Take(w) => if CanTake(d) then OnTake(f, d, w) else d
    case Serve(s) => OnServe(f, d, s)
  }

  function Run(f: Suite, d: Desktop, steps: seq<Step>): Desktop
    decreases |steps|
  {
    if steps == [] then d else Run(f, Next(f, d, steps[0]), steps[1..])
  }

  function Start(capture: InputCapture.Capture, service: BleSession.Service): Desktop {
    Desktop(capture, service, [], ZERO, [], [], [])
  }

  /** Nothing is pending anywhere yet. */
  predicate IsIdle(capture: InputCapture.Capture, service: BleSession.Service) {
    capture.queue == [] && capture.mouse.acc.sum == ZERO && service.log == []
  }

  // ---- Packets that arrived -----------------------------------------------

  function PacketsOf(es: seq<InputEvent>): seq<EncryptedData> {
    if es == [] then [] else PacketsOf(DropLast(es)) + BleSession.PayloadsOf(Last(es))
  }

  /** The mouse packets the radio took are those of the events that arrived, in order. */
  ghost predicate PacketsArrived(d: Desktop) {
    && (forall e :: e in d.arrived ==> IsMouse(e))
    && MouseDelivered(d.service.log) == PacketsOf(d.arrived)
  }

  lemma StepKeepsPackets(f: Suite, d: Desktop, step: Step)
    requires PacketsArrived(d)
    ensures PacketsArrived(Next(f, d, step))
  {
    if step.Take? && CanTake(d) {
      var e := d.capture.queue[0];
      if IsMouse(e) {
        MouseStepSends(f, d.service, e, step.w);
        assert DropLast(d.arrived + [e]) == d.arrived && Last(d.arrived + [e]) == e;
      } else {
        OtherStepSends(f, d.service, BleSession.Input(e, step.w));
      }
    } else if step.Serve? && (step.step.Notify? || step.step.Command?) {
      OtherStepSends(f, d.service, step.step);
    }
  }

  lemma {:induction false} RunKeepsPackets(f: Suite, d: Desktop, steps: seq<Step>)
    requires PacketsArrived(d)
    ensures PacketsArrived(Run(f, d, steps))
    decreases |steps|
  {
    if steps != [] {
      StepKeepsPackets(f, d, steps[0]);
      RunKeepsPackets(f, Next(f, d, steps[0]), steps[1..]);
    }
  }

  // ---- Where movement is --------------------------------------------------

  function MoveSum(es: seq<InputEvent>): Vec {
    if es == [] then ZERO else PosOf(es[0]).Plus(MoveSum(es[1..]))
  }

  lemma {:induction false} MoveSumAppend(a: seq<InputEvent>, b: seq<InputEvent>)
    ensures MoveSum(a + b) == MoveSum(a).Plus(MoveSum(b))
  {
    if a == [] {
      assert a + b == b;
    } else {
      assert (a + b)[1..] == a[1..] + b;
      MoveSumAppend(a[1..], b);
      PlusAssociative(PosOf(a[0]), MoveSum(a[1..]), MoveSum(b));
    }
  }

  lemma MoveSumOne(e: InputEvent)
    ensures MoveSum([e]) == PosOf(e)
  {
    assert [e][1..] == [] && PosOf(e).Plus(ZERO) == PosOf(e);
  }

  lemma {:induction false} MoveSumOfFlushes(fs: seq<Flush>)
    ensures MoveSum(InputCapture.MoveEvents(fs)) == SumFlushed(fs)
  {
    if fs != [] {
      var es := InputCapture.MoveEvents(fs);
      assert es[1..] == InputCapture.MoveEvents(fs[1..]) && PosOf(es[0]) == fs[0].delta;
      MoveSumOfFlushes(fs[1..]);
    }
  }

  lemma {:induction false} NoMovesNoSum(es: seq<InputEvent>)
    requires InputCapture.OnlyMoves(es) == []
    ensures MoveSum(es) == ZERO
  {
    if es != [] {
      NoMovesNoSum(es[1..]);
    }
  }

  /** The cursor's movement is flushed or pending. */
  predicate CursorBalances(d: Desktop, origin: Vec) {
    d.capture.mouse.last == origin.Plus(SumFlushed(d.flushed)).Plus(d.capture.mouse.acc.sum)
  }

  /** What was put into the queue has arrived, was missed, or is still there. */
  predicate QueueBalances(d: Desktop) {
    MoveSum(d.arrived).Plus(MoveSum(d.missed)).Plus(MoveSum(d.capture.queue))
    == SumFlushed(WithFate(d.flushed, Queued)).Plus(d.served)
  }

  predicate Balanced(d: Desktop, origin: Vec) {
    |d.capture.queue| <= InputCapture.QUEUE_CAPACITY && CursorBalances(d, origin) && QueueBalances(d)
  }

  lemma CursorSolve(origin: Vec, sum: Vec, pending: Vec, pos: Vec, out: Vec, pending': Vec)
    requires pending.Plus(pos.Minus(origin.Plus(sum).Plus(pending))) == out.Plus(pending')
    ensures pos == origin.Plus(sum.Plus(out)).Plus(pending')
  {
  }

  lemma CursorStep(m: Mouse, mv: Pointer.Move, origin: Vec, flushed: seq<Flush>)
    requires m.last == origin.Plus(SumFlushed(flushed)).Plus(m.acc.sum)
    ensures var r := HandleMove(m, mv);
            r.mouse.last == origin.Plus(SumFlushed(flushed + r.out)).Plus(r.mouse.acc.sum)
  {
    var r, sample := HandleMove(m, mv), Sample(mv.pos.Minus(m.last), mv.at, mv.capture, mv.room);
    StepConserves(m.acc, sample, MOUSE_DEBOUNCE_MS);
    SumFlushedAppend(flushed, r.out);
    CursorSolve(origin, SumFlushed(flushed), m.acc.sum, mv.pos, SumFlushed(r.out), r.mouse.acc.sum);
  }

  lemma MoreQueued(gone: Vec, queue: Vec, more: Vec, flushed: Vec, served: Vec)
    requires gone.Plus(queue) == flushed.Plus(served)
    ensures gone.Plus(queue.Plus(more)) == flushed.Plus(more).Plus(served)
    ensures gone.Plus(queue.Plus(more)) == flushed.Plus(served.Plus(more))
  {
  }

  /** Queueing the queued ones of some flushes. */
  lemma FlushesKeepBalance(gone: Vec, queue: seq<InputEvent>, flushed: seq<Flush>, served: Vec, out: seq<Flush>)
    requires gone.Plus(MoveSum(queue)) == SumFlushed(WithFate(flushed, Queued)).Plus(served)
    ensures gone.Plus(MoveSum(queue + InputCapture.MoveEvents(WithFate(out, Queued))))
         == SumFlushed(WithFate(flushed + out, Queued)).Plus(served)
  {
    var queued := WithFate(out, Queued);
    MoveSumAppend(queue, InputCapture.MoveEvents(queued));
    MoveSumOfFlushes(queued);
    InputCapture.WithFateAppend(flushed, out, Queued);
    SumFlushedAppend(WithFate(flushed, Queued), queued);
    MoreQueued(gone, MoveSum(queue), SumFlushed(queued), SumFlushed(WithFate(flushed, Queued)), served);
  }

  lemma MoveKeepsBalance(d: Desktop, e: Event, clipboard: Option<string>, origin: Vec)
    requires Balanced(d, origin) && e.eventType.MouseMove?
    ensures CursorBalances(OnInput(d, e, clipboard), origin) && QueueBalances(OnInput(d, e, clipboard))
  {
    var mv := InputCapture.MoveIn(d.capture, e.eventType.pos, e.time);
    CursorStep(d.capture.mouse, mv, origin, d.flushed);
    FlushesKeepBalance(MoveSum(d.arrived).Plus(MoveSum(d.missed)), d.capture.queue, d.flushed, d.served,
                       HandleMove(d.capture.mouse, mv).out);
  }

  lemma SplitAt(before: seq<InputEvent>, after: seq<InputEvent>)
    requires before <= after
    ensures after == before + after[|before|..]
  {
  }

  /** Input other than a movement adds only events that move nothing. */
  lemma OtherInputAdds(c: InputCapture.Capture, e: Event, clipboard: Option<string>) returns (added: seq<InputEvent>)
    requires |c.queue| <= InputCapture.QUEUE_CAPACITY && !e.eventType.MouseMove?
    ensures InputCapture.Handle(c, e, clipboard).queue == c.queue + added && MoveSum(added) == ZERO
  {
    var queue := InputCapture.Handle(c, e, clipboard).queue;
    InputCapture.AcceptedMoves(c, e, clipboard);
    added := queue[|c.queue|..];
    NoMovesNoSum(added);
    SplitAt(c.queue, queue);
  }

  lemma OtherInputKeepsMouse(d: Desktop, e: Event, clipboard: Option<string>)
    requires !e.eventType.MouseMove?
    ensures var n := OnInput(d, e, clipboard);
            n.capture.mouse == d.capture.mouse && n.flushed == d.flushed && n.served == d.served
  {
    assert d.flushed + [] == d.flushed;
  }

  lemma OtherInputKeepsBalance(d: Desktop, e: Event, clipboard: Option<string>)
    requires |d.capture.queue| <= InputCapture.QUEUE_CAPACITY && QueueBalances(d) && !e.eventType.MouseMove?
    ensures QueueBalances(OnInput(d, e, clipboard))
  {
    var added := OtherInputAdds(d.capture, e, clipboard);
    OtherInputKeepsMouse(d, e, clipboard);
    MoveSumAppend(d.capture.queue, added);
    MoreQueued(MoveSum(d.arrived).Plus(MoveSum(d.missed)), MoveSum(d.capture.queue), ZERO,
               SumFlushed(WithFate(d.flushed, Queued)), d.served);
    assert d.served.Plus(ZERO) == d.served;
  }

  lemma InputKeepsBalance(d: Desktop, e: Event, clipboard: Option<string>, origin: Vec)
    requires Balanced(d, origin)
    ensures Balanced(OnInput(d, e, clipboard), origin)
  {
    InputCapture.HandleExtends(d.capture, e, clipboard);
    if e.eventType.MouseMove? {
      MoveKeepsBalance(d, e, clipboard, origin);
    } else {
      OtherInputKeepsBalance(d, e, clipboard);
      OtherInputKeepsMouse(d, e, clipboard);
    }
  }

  lemma EnqueueKeepsBalance(d: Desktop, e: InputEvent, origin: Vec)
    requires Balanced(d, origin) && d.capture.HasRoom()
    ensures var n := d.(capture := d.capture.(queue := d.capture.queue + [e]), served := d.served.Plus(PosOf(e)));
            Balanced(n, origin)
  {
    MoveSumAppend(d.capture.queue, [e]);
    MoveSumOne(e);
    MoreQueued(MoveSum(d.arrived).Plus(MoveSum(d.missed)), MoveSum(d.capture.queue), PosOf(e),
               SumFlushed(WithFate(d.flushed, Queued)), d.served);
  }

  lemma Regrouped(a: Vec, m: Vec, p: Vec, q: Vec)
    ensures a.Plus(m).Plus(p.Plus(q)) == a.Plus(p).Plus(m).Plus(q)
    ensures a.Plus(m).Plus(p.Plus(q)) == a.Plus(m.Plus(p)).Plus(q)
    ensures a.Plus(m).Plus(ZERO.Plus(q)) == a.Plus(m).Plus(q)
  {
  }

  /** The first event of the queue becomes one that arrived or one that was missed, unless it moves nothing. */
  lemma TakenMoves(arrived: seq<InputEvent>, missed: seq<InputEvent>, e: InputEvent, rest: seq<InputEvent>)
    ensures var sum := MoveSum(arrived).Plus(MoveSum(missed)).Plus(MoveSum([e] + rest));
            && MoveSum(arrived + [e]).Plus(MoveSum(missed)).Plus(MoveSum(rest)) == sum
            && MoveSum(arrived).Plus(MoveSum(missed + [e])).Plus(MoveSum(rest)) == sum
            && (PosOf(e) == ZERO ==> MoveSum(arrived).Plus(MoveSum(missed)).Plus(MoveSum(rest)) == sum)
  {
    MoveSumAppend(arrived, [e]);
    MoveSumAppend(missed, [e]);
    MoveSumAppend([e], rest);
    MoveSumOne(e);
    Regrouped(MoveSum(arrived), MoveSum(missed), PosOf(e), MoveSum(rest));
  }

  /** What taking an event changes, apart from the service. */
  lemma TakeChanges(f: Suite, d: Desktop, w: BleSession.World)
    requires CanTake(d)
    ensures var n, e := OnTake(f, d, w), d.capture.queue[0];
            && n.capture == d.capture.(queue := d.capture.queue[1..])
            && n.flushed == d.flushed && n.served == d.served && n.clicks == d.clicks
            && n.arrived == (if IsMouse(e) && MouseTaken(f, d.service, e, w) then d.arrived + [e] else d.arrived)
            && n.missed == if IsMouse(e) && !MouseTaken(f, d.service, e, w) then d.missed + [e] else d.missed
  {
  }

  lemma TakeKeepsBalance(f: Suite, d: Desktop, w: BleSession.World, origin: Vec)
    requires CanTake(d) && Balanced(d, origin)
    ensures Balanced(OnTake(f, d, w), origin)
  {
    TakeChanges(f, d, w);
    assert d.capture.queue == [d.capture.queue[0]] + d.capture.queue[1..];
    TakenMoves(d.arrived, d.missed, d.capture.queue[0], d.capture.queue[1..]);
  }

  lemma ServeKeepsBalance(f: Suite, d: Desktop, step: BleSession.Step, origin: Vec)
    requires Balanced(d, origin)
    ensures Balanced(OnServe(f, d, step), origin)
  {
    var n := OnServe(f, d, step);
    assert n.capture.queue == d.capture.queue && n.capture.mouse == d.capture.mouse;
    assert n == d.(capture := n.capture, service := n.service);
  }

  lemma StepKeepsBalance(f: Suite, d: Desktop, step: Step, origin: Vec)
    requires Balanced(d, origin)
    ensures Balanced(Next(f, d, step), origin)
  {
    match step
    case Happen(e, clipboard) => InputKeepsBalance(d, e, clipboard, origin);
    case Enqueue(e) => if d.capture.HasRoom() { EnqueueKeepsBalance(d, e, origin); }
    case Take(w) => if CanTake(d) { TakeKeepsBalance(f, d, w, origin); }
    case Serve(s) => ServeKeepsBalance(f, d, s, origin);
  }

  lemma {:induction false} RunKeepsBalance(f: Suite, d: Desktop, steps: seq<Step>, origin: Vec)
    requires Balanced(d, origin)
    ensures Balanced(Run(f, d, steps), origin)
    decreases |steps|
  {
    if steps != [] {
      StepKeepsBalance(f, d, steps[0], origin);
      RunKeepsBalance(f, Next(f, d, steps[0]), steps[1..], origin);
    }
  }

  // ---- How far the device has moved ---------------------------------------

  function AddFrames(a: Frame, b: Frame): Frame { Frame(a.x + b.x, a.y + b.y) }

  function SumFrames(fs: seq<Frame>): Frame {
    if fs == [] then Frame(0, 0) else AddFrames(fs[0], SumFrames(fs[1..]))
  }

  /** The device moves by every frame of every mouse packet. */
  function Moved(payloads: seq<EncryptedData>): Frame {
    if payloads == [] then Frame(0, 0)
    else AddFrames(if payloads[0].MousePacket? then SumFrames(payloads[0].frames) else Frame(0, 0),
                   Moved(payloads[1..]))
  }

  lemma {:induction false} MovedAppend(a: seq<EncryptedData>, b: seq<EncryptedData>)
    ensures Moved(a + b) == AddFrames(Moved(a), Moved(b))
  {
    if a == [] {
      assert a + b == b;
    } else {
      assert (a + b)[1..] == a[1..] + b;
      MovedAppend(a[1..], b);
    }
  }

  function MoveCount(es: seq<InputEvent>): nat {
    if es == [] then 0 else MoveCount(DropLast(es)) + if InputCapture.IsMove(Last(es)) then 1 else 0
  }

  predicate IsInI32(v: Vec) {
    I32_MIN as real <= v.x <= I32_MAX as real && I32_MIN as real <= v.y <= I32_MAX as real
  }

  /** Off by at most k halves on each axis. */
  ghost predicate Within(moved: Frame, due: Vec, k: nat) {
    && -(k as real) / 2.0 <= moved.x as real - due.x <= k as real / 2.0
    && -(k as real) / 2.0 <= moved.y as real - due.y <= k as real / 2.0
  }

  lemma OneFrameMoves(payload: EncryptedData, frame: Frame)
    requires payload.MousePacket? && payload.frames == [frame]
    ensures Moved([payload]) == frame
  {
    assert [payload][1..] == [] && [frame][1..] == [];
    assert SumFrames([frame]) == AddFrames(frame, SumFrames([])) == frame;
    assert Moved([payload]) == AddFrames(SumFrames([frame]), Moved([]));
  }

  lemma OneEventPacket(e: InputEvent) returns (left: bool, right: bool, wheel: int)
    requires IsMouse(e)
    ensures BleSession.PayloadsOf(e) == [CreateMousePacket(PosOf(e).x, PosOf(e).y, left, right, wheel)]
  {
    left, right, wheel := false, false, 0;
    match e.event.eventType
    case MouseMove(pos) =>
    case ButtonPress(b) => left, right := b.Left?, b.Right?;
    case ButtonRelease(_) =>
    case Wheel(_, dy) => wheel := BleSession.WrapI32(dy);
  }

  lemma OneEventFrame(e: InputEvent)
    requires IsMouse(e)
    ensures Moved(BleSession.PayloadsOf(e)) == FrameOf(Flush(PosOf(e), 0, Queued))
  {
    var left, right, wheel := OneEventPacket(e);
    OneFrameMoves(CreateMousePacket(PosOf(e).x, PosOf(e).y, left, right, wheel), FrameOf(Flush(PosOf(e), 0, Queued)));
  }

  lemma OneEventMoves(e: InputEvent)
    requires IsMouse(e) && IsInI32(PosOf(e))
    ensures Within(Moved(BleSession.PayloadsOf(e)), PosOf(e), 1)
    ensures Integral(PosOf(e)) ==> Within(Moved(BleSession.PayloadsOf(e)), PosOf(e), 0)
  {
    OneEventFrame(e);
    FrameIsClose(Flush(PosOf(e), 0, Queued));
  }

  lemma OthersAreIntegral(e: InputEvent)
    requires !InputCapture.IsMove(e)
    ensures Integral(PosOf(e))
  {
    FloorIs(0.0, 0);
  }

  lemma WithinAdds(a: Frame, va: Vec, ka: nat, b: Frame, vb: Vec, kb: nat)
    requires Within(a, va, ka) && Within(b, vb, kb)
    ensures Within(AddFrames(a, b), va.Plus(vb), ka + kb)
  {
    CastsAdd(a.x, b.x);
    CastsAdd(a.y, b.y);
    CastsAdd(ka, kb);
  }

  lemma PacketsAdd(ps: seq<EncryptedData>, v: Vec, k: nat, more: seq<EncryptedData>, pos: Vec, one: nat)
    requires Within(Moved(ps), v, k) && Within(Moved(more), pos, one)
    ensures Within(Moved(ps + more), v.Plus(pos), k + one)
  {
    MovedAppend(ps, more);
    WithinAdds(Moved(ps), v, k, Moved(more), pos, one);
  }

  lemma MoveSumLast(es: seq<InputEvent>)
    requires es != []
    ensures MoveSum(es) == MoveSum(DropLast(es)).Plus(PosOf(Last(es)))
  {
    assert es == DropLast(es) + [Last(es)];
    MoveSumAppend(DropLast(es), [Last(es)]);
    MoveSumOne(Last(es));
  }

  /** One more event, which adds `one` to the bound. */
  lemma OneMoreArrived(es: seq<InputEvent>, k: nat, one: nat)
    requires es != [] && Within(Moved(PacketsOf(DropLast(es))), MoveSum(DropLast(es)), k)
    requires Within(Moved(BleSession.PayloadsOf(Last(es))), PosOf(Last(es)), one)
    ensures Within(Moved(PacketsOf(es)), MoveSum(es), k + one)
  {
    MoveSumLast(es);
    PacketsAdd(PacketsOf(DropLast(es)), MoveSum(DropLast(es)), k,
               BleSession.PayloadsOf(Last(es)), PosOf(Last(es)), one);
  }

  ghost predicate AllInI32(es: seq<InputEvent>) { forall e :: e in es ==> IsInI32(PosOf(e)) }

  ghost predicate AllIntegral(es: seq<InputEvent>) { forall e :: e in es ==> Integral(PosOf(e)) }

  lemma {:induction false} ArrivedMoves(es: seq<InputEvent>)
    requires AllInI32(es) && forall e :: e in es ==> IsMouse(e)
    ensures Within(Moved(PacketsOf(es)), MoveSum(es), MoveCount(es))
    decreases |es|
  {
    if es != [] {
      var e := Last(es);
      assert e in es && forall x :: x in DropLast(es) ==> x in es;
      ArrivedMoves(DropLast(es));
      OneEventMoves(e);
      if InputCapture.IsMove(e) {
        OneMoreArrived(es, MoveCount(DropLast(es)), 1);
      } else {
        OthersAreIntegral(e);
        OneMoreArrived(es, MoveCount(DropLast(es)), 0);
      }
    }
  }

  lemma {:induction false} ArrivedMovesExactly(es: seq<InputEvent>)
    requires AllInI32(es) && AllIntegral(es) && forall e :: e in es ==> IsMouse(e)
    ensures Within(Moved(PacketsOf(es)), MoveSum(es), 0)
    decreases |es|
  {
    if es != [] {
      var e := Last(es);
      assert e in es && forall x :: x in DropLast(es) ==> x in es;
      ArrivedMovesExactly(DropLast(es));
      OneEventMoves(e);
      OneMoreArrived(es, 0, 0);
    }
  }

  /** What the device owes the cursor: its way since the start and the movements of other tasks, less what is pending in
      the accumulator, was refused or discarded, still waits in the queue, or was not taken by the radio. */
  function Due(d: Desktop, origin: Vec): Vec {
    d.capture.mouse.last.Minus(origin).Plus(d.served)
     .Minus(d.capture.mouse.acc.sum)
     .Minus(SumFlushed(WithFate(d.flushed, Refused)).Plus(SumFlushed(WithFate(d.flushed, Discarded))))
     .Minus(MoveSum(d.capture.queue))
     .Minus(MoveSum(d.missed))
  }

  lemma ArrivedIsDue(d: Desktop, origin: Vec)
    requires Balanced(d, origin)
    ensures MoveSum(d.arrived) == Due(d, origin)
  {
    SplitByFate(d.flushed);
    Solve(origin, d.capture.mouse.last, d.capture.mouse.acc.sum, SumFlushed(WithFate(d.flushed, Queued)),
          SumFlushed(WithFate(d.flushed, Refused)).Plus(SumFlushed(WithFate(d.flushed, Discarded))),
          d.served, MoveSum(d.arrived), MoveSum(d.missed), MoveSum(d.capture.queue));
  }

  lemma Solve(origin: Vec, last: Vec, pending: Vec, queued: Vec, lost: Vec, served: Vec, arrived: Vec, missed: Vec,
              waiting: Vec)
    requires last == origin.Plus(queued.Plus(lost)).Plus(pending)
    requires arrived.Plus(missed).Plus(waiting) == queued.Plus(served)
    ensures arrived == last.Minus(origin).Plus(served).Minus(pending).Minus(lost).Minus(waiting).Minus(missed)
  {
  }

  /** From the cursor to the device, along every run of all tasks with any refusals on the way: after k movements have
      arrived, the device has moved as far as is due, to within k/2 on each axis, and exactly so if the
      movements were integral. */
  lemma DeviceMovesAsDue(f: Suite, capture: InputCapture.Capture, service: BleSession.Service, steps: seq<Step>)
    requires IsIdle(capture, service)
    requires AllInI32(Run(f, Start(capture, service), steps).arrived)
    ensures var end := Run(f, Start(capture, service), steps);
            var moved := Moved(MouseDelivered(end.service.log));
            && Within(moved, Due(end, capture.mouse.last), MoveCount(end.arrived))
            && (AllIntegral(end.arrived) ==> Within(moved, Due(end, capture.mouse.last), 0))
  {
    var start := Start(capture, service);
    var end := Run(f, start, steps);
    RunKeepsPackets(f, start, steps);
    RunKeepsBalance(f, start, steps, capture.mouse.last);
    ArrivedIsDue(end, capture.mouse.last);
    ArrivedMoves(end.arrived);
    if AllIntegral(end.arrived) {
      ArrivedMovesExactly(end.arrived);
    }
  }

  // ---- The buttons the user holds -----------------------------------------

  /** The last event of this button was a press. */
  function IsHeld(clicks: seq<EventType>, b: Button): bool {
    clicks != [] &&
    (Last(clicks) == ButtonPress(b) || (Last(clicks) != ButtonRelease(b) && IsHeld(DropLast(clicks), b)))
  }

  function UserHolds(d: Desktop): Buttons { Buttons(IsHeld(d.clicks, Left), IsHeld(d.clicks, Right)) }

  const NO_BUTTONS: Buttons := Buttons(false, false)

  function DeviceHolds(d: Desktop): Buttons { Held(NO_BUTTONS, Delivered(d.service.log)) }

  predicate LastPresses(es: seq<InputEvent>, b: Button) {
    es != [] && Last(es).RDevEvent? && Last(es).event.eventType == ButtonPress(b)
  }

  lemma DeviceHoldsLastPressed(d: Desktop)
    requires PacketsArrived(d)
    ensures DeviceHolds(d) == Buttons(LastPresses(d.arrived, Left), LastPresses(d.arrived, Right))
  {
    HeldByMousePackets(NO_BUTTONS, Delivered(d.service.log));
    if d.arrived != [] {
      var e := Last(d.arrived);
      assert e in d.arrived;
      HeldAppend(NO_BUTTONS, PacketsOf(DropLast(d.arrived)), BleSession.PayloadsOf(e));
      OneMousePacket(Held(NO_BUTTONS, PacketsOf(DropLast(d.arrived))), e);
    }
  }

  /** Along every run of all tasks, the device holds the buttons the user holds exactly if no button is held and the
      last mouse event that arrived presses neither, or one is held and the last mouse event that arrived is its
      press. With both held it never does. */
  lemma ButtonsAreRight(f: Suite, capture: InputCapture.Capture, service: BleSession.Service, steps: seq<Step>)
    requires IsIdle(capture, service)
    ensures var end := Run(f, Start(capture, service), steps);
            DeviceHolds(end) == UserHolds(end) <==>
              match UserHolds(end)
              case Buttons(false, false) => !LastPresses(end.arrived, Left) && !LastPresses(end.arrived, Right)
              case Buttons(true, false) => LastPresses(end.arrived, Left)
              case Buttons(false, true) => LastPresses(end.arrived, Right)
              case Buttons(true, true) => false
  {
    RunKeepsPackets(f, Start(capture, service), steps);
    DeviceHoldsLastPressed(Run(f, Start(capture, service), steps));
  }

  // ---- When everything arrives --------------------------------------------

  /** Every click is captured and finds room, other tasks leave the mouse alone, and the radio takes every mouse
      packet. */
  predicate IsSmooth(f: Suite, d: Desktop, step: Step) {
    match step
    case Happen(e, _) => IsClick(e.eventType) ==> d.capture.shared.enableMouseCapture && d.capture.HasRoom()
    case Enqueue(e) => !IsMouse(e)
    case Take(w) => CanTake(d) && IsMouse(d.capture.queue[0]) ==> MouseTaken(f, d.service, d.capture.queue[0], w)
    case Serve(_) => true
  }

  ghost predicate Smooth(f: Suite, d: Desktop, steps: seq<Step>)
    decreases |steps|
  {
    steps == [] || (IsSmooth(f, d, steps[0]) && Smooth(f, Next(f, d, steps[0]), steps[1..]))
  }

  function LastMouse(es: seq<InputEvent>): Option<InputEvent> {
    if es == [] then None
    else if IsMouse(Last(es)) then Some(Last(es))
    else LastMouse(DropLast(es))
  }

  lemma {:induction false} LastMouseAppend(a: seq<InputEvent>, b: seq<InputEvent>)
    ensures LastMouse(a + b) == if LastMouse(b).Some? then LastMouse(b) else LastMouse(a)
    decreases |b|
  {
    if b == [] {
      assert a + b == a;
    } else {
      assert DropLast(a + b) == a + DropLast(b) && Last(a + b) == Last(b);
      LastMouseAppend(a, DropLast(b));
    }
  }

  lemma {:induction false} NoMouseNoLast(es: seq<InputEvent>)
    requires forall e :: e in es ==> !IsMouse(e)
    ensures LastMouse(es) == None
  {
    if es != [] {
      assert Last(es) in es && forall e :: e in DropLast(es) ==> e in es;
      NoMouseNoLast(DropLast(es));
    }
  }

  lemma LastMouseOne(e: InputEvent)
    ensures LastMouse([e]) == if IsMouse(e) then Some(e) else None
  {
    assert DropLast([e]) == [];
  }

  /** The last of these mouse events, if it is a press, is that of a button the user holds. */
  predicate LastIsHeld(es: seq<InputEvent>, clicks: seq<EventType>) {
    var last := LastMouse(es);
    last.Some? && last.value.RDevEvent? && last.value.event.eventType.ButtonPress? ==>
      IsHeld(clicks, last.value.event.eventType.button)
  }

  predicate Tracks(d: Desktop) { LastIsHeld(d.arrived + d.capture.queue, d.clicks) }

  lemma AddedTracks(es: seq<InputEvent>, added: seq<InputEvent>, clicks: seq<EventType>)
    requires LastIsHeld(es, clicks) && forall x :: x in added && IsMouse(x) ==> InputCapture.IsMove(x)
    ensures LastIsHeld(es + added, clicks)
  {
    LastMouseAppend(es, added);
    LastMouseIsMove(added);
  }

  lemma KeysAreNoMouse(c: InputCapture.Capture, key: Key, e: Event, clipboard: Option<string>)
    requires e.eventType == KeyPress(key)
    ensures forall x :: x in InputCapture.PressOffers(c, key, e, clipboard) ==> !IsMouse(x)
  {
  }

  /** What the handler adds to the queue for anything but clicks is at most a movement. */
  lemma AddedIsNoClick(c: InputCapture.Capture, e: Event, clipboard: Option<string>)
    requires |c.queue| <= InputCapture.QUEUE_CAPACITY && !IsClick(e.eventType)
    ensures c.queue <= InputCapture.Handle(c, e, clipboard).queue
    ensures forall x :: x in InputCapture.Handle(c, e, clipboard).queue[|c.queue|..] && IsMouse(x) ==>
              InputCapture.IsMove(x)
  {
    if e.eventType.KeyPress? {
      var key := e.eventType.key;
      InputCapture.OfferAllExtends(c.queue, c.open, InputCapture.PressOffers(c, key, e, clipboard));
      KeysAreNoMouse(c, key, e, clipboard);
    } else if e.eventType.MouseMove? {
      var fs := WithFate(HandleMove(c.mouse, InputCapture.MoveIn(c, e.eventType.pos, e.time)).out, Queued);
      assert InputCapture.Handle(c, e, clipboard).queue[|c.queue|..] == InputCapture.MoveEvents(fs);
      AllMoves(fs);
    }
  }

  lemma {:induction false} AllMoves(fs: seq<Flush>)
    ensures forall x :: x in InputCapture.MoveEvents(fs) ==> InputCapture.IsMove(x)
  {
    if fs != [] {
      AllMoves(fs[1..]);
    }
  }

  lemma {:induction false} LastMouseIsMove(es: seq<InputEvent>)
    requires forall x :: x in es && IsMouse(x) ==> InputCapture.IsMove(x)
    ensures LastMouse(es).Some? ==> InputCapture.IsMove(LastMouse(es).value)
  {
    if es != [] {
      assert Last(es) in es && forall e :: e in DropLast(es) ==> e in es;
      LastMouseIsMove(DropLast(es));
    }
  }

  lemma ClickTracks(d: Desktop, e: Event, clipboard: Option<string>)
    requires IsClick(e.eventType) && d.capture.shared.enableMouseCapture && d.capture.HasRoom()
    ensures Tracks(OnInput(d, e, clipboard))
  {
    var n, x, before := OnInput(d, e, clipboard), RDevEvent(e), d.arrived + d.capture.queue;
    assert n.arrived + n.capture.queue == before + [x];
    LastMouseAppend(before, [x]);
    LastMouseOne(x);
    assert Last(n.clicks) == e.eventType;
  }

  lemma InputTracks(d: Desktop, e: Event, clipboard: Option<string>)
    requires |d.capture.queue| <= InputCapture.QUEUE_CAPACITY && Tracks(d) && !IsClick(e.eventType)
    ensures Tracks(OnInput(d, e, clipboard))
  {
    var queue := OnInput(d, e, clipboard).capture.queue;
    AddedIsNoClick(d.capture, e, clipboard);
    var added := queue[|d.capture.queue|..];
    assert queue == d.capture.queue + added;
    Regroup(d.arrived, d.capture.queue, added);
    AddedTracks(d.arrived + d.capture.queue, added, d.clicks);
    assert d.clicks + [] == d.clicks;
  }

  lemma TakeTracks(f: Suite, d: Desktop, w: BleSession.World)
    requires CanTake(d) && Tracks(d) && IsSmooth(f, d, Take(w))
    ensures Tracks(OnTake(f, d, w))
  {
    var n, e, rest := OnTake(f, d, w), d.capture.queue[0], d.capture.queue[1..];
    TakeChanges(f, d, w);
    assert d.capture.queue == [e] + rest;
    Regroup(d.arrived, [e], rest);
    if !IsMouse(e) {
      LastMouseAppend(d.arrived + [e], rest);
      LastMouseAppend(d.arrived, [e]);
      LastMouseAppend(d.arrived, rest);
      LastMouseOne(e);
    }
  }

  lemma StepTracks(f: Suite, d: Desktop, step: Step)
    requires |d.capture.queue| <= InputCapture.QUEUE_CAPACITY && Tracks(d) && IsSmooth(f, d, step)
    ensures |Next(f, d, step).capture.queue| <= InputCapture.QUEUE_CAPACITY && Tracks(Next(f, d, step))
  {
    match step
    case Happen(e, clipboard) =>
      InputCapture.HandleExtends(d.capture, e, clipboard);
      if IsClick(e.eventType) {
        ClickTracks(d, e, clipboard);
      } else {
        InputTracks(d, e, clipboard);
      }
    case Enqueue(e) =>
      if d.capture.HasRoom() {
        Regroup(d.arrived, d.capture.queue, [e]);
        LastMouseAppend(d.arrived + d.capture.queue, [e]);
        LastMouseOne(e);
      }
    case Take(w) => if CanTake(d) { TakeTracks(f, d, w); }
    case Serve(_) =>
  }

  lemma {:induction false} RunTracks(f: Suite, d: Desktop, steps: seq<Step>)
    requires |d.capture.queue| <= InputCapture.QUEUE_CAPACITY && Tracks(d) && Smooth(f, d, steps)
    ensures Tracks(Run(f, d, steps))
    decreases |steps|
  {
    if steps != [] {
      StepTracks(f, d, steps[0]);
      RunTracks(f, Next(f, d, steps[0]), steps[1..]);
    }
  }

  /** Even when every click is captured, queued, sent and taken, the device holds the buttons the user holds exactly if
      none is held, or one is held and no movement, wheel or other click arrived since its press. */
  lemma SmoothButtons(f: Suite, capture: InputCapture.Capture, service: BleSession.Service, steps: seq<Step>)
    requires IsIdle(capture, service) && Smooth(f, Start(capture, service), steps)
    requires forall e :: e in Run(f, Start(capture, service), steps).capture.queue ==> !IsMouse(e)
    ensures var end := Run(f, Start(capture, service), steps);
            DeviceHolds(end) == UserHolds(end) <==>
              match UserHolds(end)
              case Buttons(false, false) => true
              case Buttons(true, false) => LastPresses(end.arrived, Left)
              case Buttons(false, true) => LastPresses(end.arrived, Right)
              case Buttons(true, true) => false
  {
    var start := Start(capture, service);
    var end := Run(f, start, steps);
    RunTracks(f, start, steps);
    RunKeepsPackets(f, start, steps);
    ButtonsAreRight(f, capture, service, steps);
    NoMouseNoLast(end.capture.queue);
    LastMouseAppend(end.arrived, end.capture.queue);
    if end.arrived != [] {
      assert Last(end.arrived) in end.arrived;
    }
  }

  // ---- One state, one end -------------------------------------------------

  /** Both sides see one application state, and a task that has died leaves the queue closed. */
  predicate IsJoined(d: Desktop) {
    d.capture.shared == d.service.app && (d.service.stopped ==> !d.capture.open)
  }

  lemma StepKeepsJoined(f: Suite, d: Desktop, step: Step)
    requires IsJoined(d)
    ensures IsJoined(Next(f, d, step))
  {
  }

  lemma {:induction false} RunKeepsJoined(f: Suite, d: Desktop, steps: seq<Step>)
    requires IsJoined(d)
    ensures IsJoined(Run(f, d, steps))
    decreases |steps|
  {
    if steps != [] {
      StepKeepsJoined(f, d, steps[0]);
      RunKeepsJoined(f, Next(f, d, steps[0]), steps[1..]);
    }
  }

  lemma ClosedTakesNothing(c: InputCapture.Capture, e: Event, clipboard: Option<string>)
    requires !c.open
    ensures InputCapture.Handle(c, e, clipboard).queue == c.queue && !InputCapture.Handle(c, e, clipboard).open
  {
    if e.eventType.KeyPress? {
      ClosedOffers(c.queue, InputCapture.PressOffers(c, e.eventType.key, e, clipboard));
    } else if e.eventType.MouseMove? {
      InputCapture.QueuedNeedsRoom(c, e.eventType.pos, e.time);
    }
  }

  lemma {:induction false} ClosedOffers(queue: seq<InputEvent>, es: seq<InputEvent>)
    ensures InputCapture.OfferAll(queue, false, es) == queue
    decreases |es|
  {
    if es != [] {
      ClosedOffers(queue, es[1..]);
    }
  }

  lemma StepAfterTheEnd(f: Suite, d: Desktop, step: Step)
    requires d.service.stopped && !d.capture.open
    ensures var n := Next(f, d, step);
            n.service.stopped && !n.capture.open && n.capture.queue == d.capture.queue && n.service.log == d.service.log
  {
    if step.Happen? {
      ClosedTakesNothing(d.capture, step.event, step.clipboard);
    }
  }

  /** Once the BLE task has ended, in whatever run, nothing enters or leaves the queue any more and nothing is sent. */
  lemma {:induction false} NothingAfterTheEnd(f: Suite, d: Desktop, steps: seq<Step>)
    requires IsJoined(d) && d.service.stopped
    ensures Run(f, d, steps).capture.queue == d.capture.queue && Run(f, d, steps).service.log == d.service.log
    decreases |steps|
  {
    if steps != [] {
      StepAfterTheEnd(f, d, steps[0]);
      StepKeepsJoined(f, d, steps[0]);
      NothingAfterTheEnd(f, Next(f, d, steps[0]), steps[1..]);
    }
  }

  // ---- From the queue to the device ---------------------------------------

  /** What arrives in one step: of an event taken from the queue or of a command, what it asks for up to the first
      message that does not pass. */
  function ArrivesNow(f: Suite, d: Desktop, step: Step): seq<EncryptedData> {
    match step
    case Take(w) =>
      if CanTake(d) then
        var asked := Asked(d.capture.queue[0]);
        UpTo(asked, PassCount(f, d.service.ctx, asked, w, 0))
      else []
    case Serve(Command(cmd, w)) =>
      if d.service.stopped then [] else UpTo(AskedBy(cmd), PassCount(f, d.service.ctx, AskedBy(cmd), w, 0))
    case _ => []
  }

  function ArrivesAlong(f: Suite, d: Desktop, steps: seq<Step>): seq<EncryptedData>
    decreases |steps|
  {
    if steps == [] then [] else ArrivesNow(f, d, steps[0]) + ArrivesAlong(f, Next(f, d, steps[0]), steps[1..])
  }

  lemma StepArrives(f: Suite, d: Desktop, step: Step)
    ensures Delivered(Next(f, d, step).service.log) == Delivered(d.service.log) + ArrivesNow(f, d, step)
  {
    match step
    case Take(w) => if CanTake(d) { Delivery.StepArrives(f, d.service, BleSession.Input(d.capture.queue[0], w)); }
    case Serve(s) => if s.Notify? || s.Command? { Delivery.StepArrives(f, d.service, s); }
    case _ =>
  }

  /** Along every run of all tasks the device received exactly what the events taken from the queue and the commands
      asked for and what passed, in order: names and codes of keys with their lengths, text, media keys, mouse
      packets. */
  lemma {:induction false} AskedReachesDevice(f: Suite, d: Desktop, steps: seq<Step>)
    ensures Delivered(Run(f, d, steps).service.log) == Delivered(d.service.log) + ArrivesAlong(f, d, steps)
    decreases |steps|
  {
    if steps == [] {
      assert Delivered(d.service.log) + [] == Delivered(d.service.log);
    } else {
      var n := Next(f, d, steps[0]);
      StepArrives(f, d, steps[0]);
      AskedReachesDevice(f, n, steps[1..]);
      Regroup(Delivered(d.service.log), ArrivesNow(f, d, steps[0]), ArrivesAlong(f, n, steps[1..]));
    }
  }

  // ---- From the hook to the device ----------------------------------------

  /** What enters the queue in one step. */
  function EntersNow(f: Suite, d: Desktop, step: Step): seq<InputEvent> {
    var queue := Next(f, d, step).capture.queue;
    if (step.Happen? || step.Enqueue?) && |d.capture.queue| <= |queue| then queue[|d.capture.queue|..] else []
  }

  function EntersAlong(f: Suite, d: Desktop, steps: seq<Step>): seq<InputEvent>
    decreases |steps|
  {
    if steps == [] then [] else EntersNow(f, d, steps[0]) + EntersAlong(f, Next(f, d, steps[0]), steps[1..])
  }

  function AskedByAll(es: seq<InputEvent>): seq<EncryptedData> {
    if es == [] then [] else Asked(es[0]) + AskedByAll(es[1..])
  }

  lemma {:induction false} AskedByAllAppend(a: seq<InputEvent>, b: seq<InputEvent>)
    ensures AskedByAll(a + b) == AskedByAll(a) + AskedByAll(b)
  {
    if a == [] {
      assert a + b == b;
    } else {
      assert (a + b)[1..] == a[1..] + b;
      AskedByAllAppend(a[1..], b);
      Regroup(Asked(a[0]), AskedByAll(a[1..]), AskedByAll(b));
    }
  }

  /** Everything that is taken passes, and no command asks for anything. */
  ghost predicate AllPass(f: Suite, d: Desktop, steps: seq<Step>)
    decreases |steps|
  {
    steps == [] ||
    (&& (match steps[0]
         case Take(w) =>
           CanTake(d) ==> PassCount(f, d.service.ctx, Asked(d.capture.queue[0]), w, 0) == |Asked(d.capture.queue[0])|
         case Serve(Command(cmd, _)) => AskedBy(cmd) == []
         case _ => true)
     && AllPass(f, Next(f, d, steps[0]), steps[1..]))
  }

  lemma EnteringIsAsked(f: Suite, d: Desktop, step: Step)
    requires step.Happen? || step.Enqueue?
    requires d.capture.queue <= Next(f, d, step).capture.queue
    ensures ArrivesNow(f, d, step) == []
    ensures AskedByAll(Next(f, d, step).capture.queue)
         == AskedByAll(d.capture.queue) + AskedByAll(EntersNow(f, d, step))
  {
    AskedByMore(d.capture.queue, Next(f, d, step).capture.queue);
  }

  lemma AskedByMore(before: seq<InputEvent>, after: seq<InputEvent>)
    requires before <= after
    ensures AskedByAll(after) == AskedByAll(before) + AskedByAll(after[|before|..])
  {
    SplitAt(before, after);
    AskedByAllAppend(before, after[|before|..]);
  }

  lemma TakingPasses(f: Suite, d: Desktop, w: BleSession.World)
    requires AllPass(f, d, [Take(w)])
    ensures ArrivesNow(f, d, Take(w)) + AskedByAll(Next(f, d, Take(w)).capture.queue) == AskedByAll(d.capture.queue)
    ensures |Next(f, d, Take(w)).capture.queue| <= |d.capture.queue|
  {
    if CanTake(d) {
      TakeChanges(f, d, w);
      var asked := Asked(d.capture.queue[0]);
      assert UpTo(asked, |asked|) == asked;
    } else {
      assert [] + AskedByAll(d.capture.queue) == AskedByAll(d.capture.queue);
    }
  }

  lemma StepPassesOn(f: Suite, d: Desktop, step: Step)
    requires |d.capture.queue| <= InputCapture.QUEUE_CAPACITY && AllPass(f, d, [step])
    ensures |Next(f, d, step).capture.queue| <= InputCapture.QUEUE_CAPACITY
    ensures ArrivesNow(f, d, step) + AskedByAll(Next(f, d, step).capture.queue)
         == AskedByAll(d.capture.queue) + AskedByAll(EntersNow(f, d, step))
  {
    match step
    case Happen(e, clipboard) =>
      InputCapture.HandleExtends(d.capture, e, clipboard);
      EnteringIsAsked(f, d, step);
    case Enqueue(e) => EnteringIsAsked(f, d, step);
    case Take(w) => TakingPasses(f, d, w);
    case Serve(s) => ServeKeepsQueue(f, d, s);
  }

  lemma ServeKeepsQueue(f: Suite, d: Desktop, step: BleSession.Step)
    requires step.Command? ==> AskedBy(step.cmd) == []
    ensures OnServe(f, d, step).capture.queue == d.capture.queue && ArrivesNow(f, d, Serve(step)) == []
  {
  }

  /** When everything passes, the device receives what every event that enters the queue asks for, once and in
      order, up to what still waits there. */
  lemma {:induction false} QueueReachesDevice(f: Suite, d: Desktop, steps: seq<Step>)
    requires |d.capture.queue| <= InputCapture.QUEUE_CAPACITY && AllPass(f, d, steps)
    ensures ArrivesAlong(f, d, steps) + AskedByAll(Run(f, d, steps).capture.queue)
         == AskedByAll(d.capture.queue) + AskedByAll(EntersAlong(f, d, steps))
    decreases |steps|
  {
    if steps == [] {
      assert [] + AskedByAll(d.capture.queue) == AskedByAll(d.capture.queue) + [];
    } else {
      var n := Next(f, d, steps[0]);
      var now, later := ArrivesNow(f, d, steps[0]), ArrivesAlong(f, n, steps[1..]);
      var entersNow, entersLater := EntersNow(f, d, steps[0]), EntersAlong(f, n, steps[1..]);
      assert [steps[0]][1..] == [];
      StepPassesOn(f, d, steps[0]);
      QueueReachesDevice(f, n, steps[1..]);
      AskedByAllAppend(entersNow, entersLater);
      Regroup(now, later, AskedByAll(Run(f, d, steps).capture.queue));
      Regroup(now, AskedByAll(n.capture.queue), AskedByAll(entersLater));
      Regroup(AskedByAll(d.capture.queue), AskedByAll(entersNow), AskedByAll(entersLater));
    }
  }
}
