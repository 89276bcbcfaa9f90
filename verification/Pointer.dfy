/** From cursor positions to the displacement the device performs. */
module Pointer {
  import opened Basics
  import opened Motion
  import opened Packets

  /** A cursor report with the capture flag read for it and the room left in the queue. */
  datatype Move = Move(pos: Vec, at: int, capture: bool, room: bool)

  datatype Mouse = Mouse(last: Vec, acc: Accumulator)

  datatype MouseOutcome = MouseOutcome(mouse: Mouse, out: seq<Flush>)

  const MOUSE_DEBOUNCE_MS: nat := 50

  function HandleMove(m: Mouse, mv: Move): MouseOutcome {
    var r := Accumulate(m.acc, Sample(mv.pos.Minus(m.last), mv.at, mv.capture, mv.room), MOUSE_DEBOUNCE_MS);
    MouseOutcome(Mouse(mv.pos, r.acc), r.out)
  }

  function HandleMoves(m: Mouse, mvs: seq<Move>): MouseOutcome
    decreases |mvs|
  {
    if mvs == [] then MouseOutcome(m, [])
    else
      var first := HandleMove(m, mvs[0]);
      var rest := HandleMoves(first.mouse, mvs[1..]);
      MouseOutcome(rest.mouse, first.out + rest.out)
  }

  function Deltas(last: Vec, mvs: seq<Move>): seq<Sample>
    decreases |mvs|
  {
    if mvs == [] then []
    else [Sample(mvs[0].pos.Minus(last), mvs[0].at, mvs[0].capture, mvs[0].room)]
         + Deltas(mvs[0].pos, mvs[1..])
  }

  /** The handler is the accumulator run on the differences between successive positions. */
  lemma {:induction false} MovesAreDeltas(m: Mouse, mvs: seq<Move>)
    ensures var r := HandleMoves(m, mvs);
            var a := Run(m.acc, Deltas(m.last, mvs), MOUSE_DEBOUNCE_MS);
            && r.out == a.out && r.mouse.acc == a.acc
            && r.mouse.last == (if mvs == [] then m.last else mvs[|mvs| - 1].pos)
            && m.last.Plus(Sum(Deltas(m.last, mvs))) == r.mouse.last
    decreases |mvs|
  {
    if mvs != [] {
      var ds := Deltas(m.last, mvs);
      var first := HandleMove(m, mvs[0]);
      MovesAreDeltas(first.mouse, mvs[1..]);
      assert ds[1..] == Deltas(mvs[0].pos, mvs[1..]);
      assert mvs[1..] != [] ==> mvs[1..][|mvs| - 2] == mvs[|mvs| - 1];
      PlusAssociative(m.last, ds[0].delta, Sum(ds[1..]));
    }
  }

  /** Along any run, with capture toggled and events refused at will: the position is what it
      was, plus everything flushed (queued, refused or discarded), plus what is still pending. */
  lemma PositionIsFlushedPlusPending(m: Mouse, mvs: seq<Move>)
    requires m.acc.sum == ZERO
    ensures var r := HandleMoves(m, mvs);
            r.mouse.last == m.last.Plus(SumFlushed(r.out)).Plus(r.mouse.acc.sum)
  {
    var r := HandleMoves(m, mvs);
    MovesAreDeltas(m, mvs);
    Conservation(m.acc, Deltas(m.last, mvs), MOUSE_DEBOUNCE_MS);
    PlusAssociative(m.last, SumFlushed(r.out), r.mouse.acc.sum);
  }

  /** Nor does merging deltas hide any movement: the distance travelled on each axis is what was flushed and what
      is still pending, counted without sign. */
  lemma TravelIsFlushedPlusPending(m: Mouse, mvs: seq<Move>)
    requires m.acc.sum == ZERO
    ensures var r := HandleMoves(m, mvs);
            SumTravel(Deltas(m.last, mvs)) == SumFlushedTravel(r.out).Plus(r.mouse.acc.sum.Travel())
  {
    MovesAreDeltas(m, mvs);
    NoCancellation(m.acc, Deltas(m.last, mvs), MOUSE_DEBOUNCE_MS);
  }

  /** With the handler's threshold: flushes by timeout are fifty milliseconds apart, and nothing pending is older. */
  lemma FlushRate(m: Mouse, mvs: seq<Move>, closed: seq<Segment>, open: seq<Sample>)
    requires m.acc.sum == ZERO && Segmented(closed, open, m.acc.resetAt, Deltas(m.last, mvs), MOUSE_DEBOUNCE_MS)
    requires NonDecreasing(m.acc.resetAt, Deltas(m.last, mvs))
    ensures var reset := HandleMoves(m, mvs).mouse.acc.resetAt;
            && Timeouts(closed) * 50_000_000 <= reset - m.acc.resetAt
            && (forall i :: 0 <= i < |open| ==> 0 <= open[i].at - reset < 50_000_000)
  {
    MovesAreDeltas(m, mvs);
    DebounceRate(closed, open, m.acc.resetAt, Deltas(m.last, mvs), MOUSE_DEBOUNCE_MS);
  }

  // ---- What the device does with it ---------------------------------------

  function WithFate(fs: seq<Flush>, fate: Fate): seq<Flush> {
    if fs == [] then []
    else if fs[0].fate == fate then [fs[0]] + WithFate(fs[1..], fate)
    else WithFate(fs[1..], fate)
  }

  /** The frame of the mouse packet made from one queued event. */
  function FrameOf(f: Flush): Frame {
    CreateMousePacket(f.delta.x, f.delta.y, false, false, 0).frames[0]
  }

  function Displacement(fs: seq<Flush>): Frame {
    if fs == [] then Frame(0, 0)
    else
      var rest := Displacement(fs[1..]);
      Frame(FrameOf(fs[0]).x + rest.x, FrameOf(fs[0]).y + rest.y)
  }

  ghost predicate InI32(fs: seq<Flush>) {
    forall f :: f in fs ==>
      && I32_MIN as real <= f.delta.x <= I32_MAX as real
      && I32_MIN as real <= f.delta.y <= I32_MAX as real
  }

  lemma SumFlushedCons(f: Flush, fs: seq<Flush>)
    ensures SumFlushed([f] + fs) == f.delta.Plus(SumFlushed(fs))
  {
    assert ([f] + fs)[1..] == fs;
  }

  /** The sum over the three fates, one after the other. */
  function SumOfFates(fs: seq<Flush>): Vec {
    SumFlushed(WithFate(fs, Queued))
    .Plus(SumFlushed(WithFate(fs, Refused)).Plus(SumFlushed(WithFate(fs, Discarded))))
  }

  lemma SumOfFatesCons(fs: seq<Flush>)
    requires fs != []
    ensures SumOfFates(fs) == fs[0].delta.Plus(SumOfFates(fs[1..]))
  {
    var d, rest := fs[0].delta, fs[1..];
    SumFlushedCons(fs[0], WithFate(rest, fs[0].fate));
    var q, r, c := SumFlushed(WithFate(rest, Queued)), SumFlushed(WithFate(rest, Refused)),
                   SumFlushed(WithFate(rest, Discarded));
    match fs[0].fate
    case Queued => PlusAssociative(d, q, r.Plus(c));
    case Refused => PlusSwaps(d, q, r.Plus(c)); PlusAssociative(d, r, c);
    case Discarded => PlusSwaps(d, q, r.Plus(c)); PlusSwaps(d, r, c);
  }

  lemma {:induction false} SplitByFate(fs: seq<Flush>)
    ensures SumFlushed(fs) == SumOfFates(fs)
  {
    if fs != [] {
      SplitByFate(fs[1..]);
      SumOfFatesCons(fs);
    }
  }

  lemma PlusSwaps(a: Vec, b: Vec, c: Vec)
    ensures a.Plus(b.Plus(c)) == b.Plus(a.Plus(c))
  {
  }

  lemma FrameIsClose(f: Flush)
    requires InI32([f])
    ensures -0.5 <= FrameOf(f).x as real - f.delta.x <= 0.5
    ensures -0.5 <= FrameOf(f).y as real - f.delta.y <= 0.5
    ensures f.delta.x == f.delta.x.Floor as real ==> FrameOf(f).x as real == f.delta.x
    ensures f.delta.y == f.delta.y.Floor as real ==> FrameOf(f).y as real == f.delta.y
  {
    assert f in [f];
    RoundIsClose(f.delta.x);
    RoundIsClose(f.delta.y);
    if f.delta.x == f.delta.x.Floor as real {
      RoundIsExact(f.delta.x, f.delta.x.Floor);
    }
    if f.delta.y == f.delta.y.Floor as real {
      RoundIsExact(f.delta.y, f.delta.y.Floor);
    }
  }

  lemma {:induction false} DisplacementIsClose(fs: seq<Flush>)
    requires InI32(fs)
    ensures var d, s, k := Displacement(fs), SumFlushed(fs), |fs| as real;
            && -k / 2.0 <= d.x as real - s.x <= k / 2.0
            && -k / 2.0 <= d.y as real - s.y <= k / 2.0
  {
    if fs != [] {
      assert fs[0] in fs && forall f :: f in fs[1..] ==> f in fs;
      FrameIsClose(fs[0]);
      DisplacementIsClose(fs[1..]);
    }
  }

  ghost predicate Integral(v: Vec) { v.x == v.x.Floor as real && v.y == v.y.Floor as real }

  lemma {:induction false} DisplacementIsExact(fs: seq<Flush>)
    requires InI32(fs)
    requires forall f :: f in fs ==> Integral(f.delta)
    ensures Displacement(fs).x as real == SumFlushed(fs).x && Displacement(fs).y as real == SumFlushed(fs).y
  {
    if fs != [] {
      assert fs[0] in fs && forall f :: f in fs[1..] ==> f in fs;
      FrameIsClose(fs[0]);
      DisplacementIsExact(fs[1..]);
    }
  }

  lemma {:induction false} IntegralInIntegralOut(m: Mouse, mvs: seq<Move>)
    requires Integral(m.last) && Integral(m.acc.sum)
    requires forall i :: 0 <= i < |mvs| ==> Integral(mvs[i].pos)
    ensures forall f :: f in HandleMoves(m, mvs).out ==> Integral(f.delta)
    decreases |mvs|
  {
    if mvs != [] {
      var first := HandleMove(m, mvs[0]);
      assert Integral(mvs[0].pos);
      var d := mvs[0].pos.Minus(m.last);
      IntegralVectors(mvs[0].pos, m.last);
      IntegralVectors(m.acc.sum, d);
      IntegralInIntegralOut(first.mouse, mvs[1..]);
    }
  }

  lemma IntegralNumbers(a: real, b: real, m: int, n: int)
    requires a == m as real && b == n as real
    ensures a + b == (a + b).Floor as real
    ensures a - b == (a - b).Floor as real
  {
    CastsAdd(m, n);
    FloorIs(a + b, m + n);
    FloorIs(a - b, m - n);
  }

  lemma IntegralVectors(a: Vec, b: Vec)
    requires Integral(a) && Integral(b)
    ensures Integral(a.Plus(b)) && Integral(a.Minus(b))
  {
    IntegralNumbers(a.x, b.x, a.x.Floor, b.x.Floor);
    IntegralNumbers(a.y, b.y, a.y.Floor, b.y.Floor);
  }

  /** After k queued mouse packets the device has moved as far as the cursor did, less what is pending
      and what was refused or discarded, to within k/2 on each axis. */
  lemma DeviceFollowsCursor(m: Mouse, mvs: seq<Move>)
    requires m.acc.sum == ZERO
    requires InI32(WithFate(HandleMoves(m, mvs).out, Queued))
    ensures var r := HandleMoves(m, mvs);
            var queued := WithFate(r.out, Queued);
            var d := Displacement(queued);
            var lost := SumFlushed(WithFate(r.out, Refused)).Plus(SumFlushed(WithFate(r.out, Discarded)));
            var due := r.mouse.last.Minus(m.last).Minus(r.mouse.acc.sum).Minus(lost);
            var k := |queued| as real;
            && -k / 2.0 <= d.x as real - due.x <= k / 2.0
            && -k / 2.0 <= d.y as real - due.y <= k / 2.0
  {
    var r := HandleMoves(m, mvs);
    PositionIsFlushedPlusPending(m, mvs);
    SplitByFate(r.out);
    DisplacementIsClose(WithFate(r.out, Queued));
  }

  /** With capture on, room in the queue and integral positions the device misses nothing at all. */
  lemma DeviceIsExact(m: Mouse, mvs: seq<Move>)
    requires m.acc.sum == ZERO
    requires InI32(HandleMoves(m, mvs).out)
    requires Integral(m.last) && forall i :: 0 <= i < |mvs| ==> Integral(mvs[i].pos)
    requires forall i :: 0 <= i < |mvs| ==> mvs[i].capture && mvs[i].room
    ensures var r := HandleMoves(m, mvs);
            var d := Displacement(r.out);
            var due := r.mouse.last.Minus(m.last).Minus(r.mouse.acc.sum);
            && WithFate(r.out, Queued) == r.out
            && d.x as real == due.x && d.y as real == due.y
  {
    var r := HandleMoves(m, mvs);
    AllQueued(m, mvs);
    PositionIsFlushedPlusPending(m, mvs);
    IntegralInIntegralOut(m, mvs);
    DisplacementIsExact(r.out);
    AllWithFate(r.out, Queued);
  }

  lemma {:induction false} AllQueued(m: Mouse, mvs: seq<Move>)
    requires forall i :: 0 <= i < |mvs| ==> mvs[i].capture && mvs[i].room
    ensures forall f :: f in HandleMoves(m, mvs).out ==> f.fate == Queued
    decreases |mvs|
  {
    if mvs != [] {
      AllQueued(HandleMove(m, mvs[0]).mouse, mvs[1..]);
    }
  }

  lemma {:induction false} AllWithFate(fs: seq<Flush>, fate: Fate)
    requires forall f :: f in fs ==> f.fate == fate
    ensures WithFate(fs, fate) == fs
  {
    if fs != [] {
      assert fs[0] in fs && forall f :: f in fs[1..] ==> f in fs;
      AllWithFate(fs[1..], fate);
    }
  }
}
