/** Mouse deltas folded into one accumulator that is flushed on a change of
    direction or when the debounce threshold has passed. */
module Motion {
  import opened Basics

  const NANOS_PER_MS: int := 1_000_000

  datatype Vec = Vec(x: real, y: real) {
    function Plus(o: Vec): Vec { Vec(x + o.x, y + o.y) }
    function Minus(o: Vec): Vec { Vec(x - o.x, y - o.y) }
    predicate IsZero() { x == 0.0 && y == 0.0 }
    /** Distance covered on each axis, whatever the direction. */
    function Travel(): Vec { Vec(Abs(x), Abs(y)) }
  }

  const ZERO: Vec := Vec(0.0, 0.0)

  function Abs(r: real): real { if r < 0.0 then -r else r }

  // What became of a flushed delta: queued, refused by a full or closed queue, or
  // thrown away because capture was off.
  datatype Fate = Queued | Refused | Discarded

  datatype Flush = Flush(delta: Vec, at: int, fate: Fate)

  /** A delta with its time stamp in nanoseconds, the capture flag the handler read
      for this event, and whether the queue would take an event now. */
  datatype Sample = Sample(delta: Vec, at: int, capture: bool, room: bool) {
    function Fate(): Fate {
      if !capture then Discarded else if room then Queued else Refused
    }
  }

  datatype Accumulator = Accumulator(sum: Vec, resetAt: int)

  datatype Outcome = Outcome(acc: Accumulator, out: seq<Flush>)

  predicate Opposes(d: real, a: real) {
    (d > 0.0 && a < 0.0) || (d < 0.0 && a > 0.0)
  }

  predicate Turns(d: Vec, a: Vec) {
    Opposes(d.x, a.x) || Opposes(d.y, a.y)
  }

  /** A clock that ran backwards counts as no time at all. */
  predicate TimedOut(start: int, at: int, thresholdMs: nat) {
    start <= at && (at - start) / NANOS_PER_MS >= thresholdMs
  }

  function Emit(sum: Vec, closer: Sample): seq<Flush> {
    if sum.IsZero() then [] else [Flush(sum, closer.at, closer.Fate())]
  }

  /** One event of the accumulator. */
  function Accumulate(a: Accumulator, s: Sample, thresholdMs: nat): Outcome {
    if Turns(s.delta, a.sum) then
      Outcome(Accumulator(s.delta, s.at), Emit(a.sum, s))
    else
      var sum := a.sum.Plus(s.delta);
      if TimedOut(a.resetAt, s.at, thresholdMs) then
        Outcome(Accumulator(ZERO, s.at), Emit(sum, s))
      else
        Outcome(Accumulator(sum, a.resetAt), [])
  }

  function Run(a: Accumulator, ss: seq<Sample>, thresholdMs: nat): Outcome
    decreases |ss|
  {
    if ss == [] then Outcome(a, [])
    else
      var first := Accumulate(a, ss[0], thresholdMs);
      var rest := Run(first.acc, ss[1..], thresholdMs);
      Outcome(rest.acc, first.out + rest.out)
  }

  function Sum(ss: seq<Sample>): Vec {
    if ss == [] then ZERO else ss[0].delta.Plus(Sum(ss[1..]))
  }

  function SumTravel(ss: seq<Sample>): Vec {
    if ss == [] then ZERO else ss[0].delta.Travel().Plus(SumTravel(ss[1..]))
  }

  function SumFlushed(fs: seq<Flush>): Vec {
    if fs == [] then ZERO else fs[0].delta.Plus(SumFlushed(fs[1..]))
  }

  function SumFlushedTravel(fs: seq<Flush>): Vec {
    if fs == [] then ZERO else fs[0].delta.Travel().Plus(SumFlushedTravel(fs[1..]))
  }

  lemma PlusAssociative(a: Vec, b: Vec, c: Vec)
    ensures a.Plus(b).Plus(c) == a.Plus(b.Plus(c))
  {
  }

  /** Two balanced steps balance together. */
  lemma Chain(a: Vec, d: Vec, out: Vec, b: Vec, ds: Vec, outs: Vec, c: Vec)
    requires a.Plus(d) == out.Plus(b)
    requires b.Plus(ds) == outs.Plus(c)
    ensures a.Plus(d.Plus(ds)) == out.Plus(outs).Plus(c)
  {
    PlusAssociative(a, d, ds);
    PlusAssociative(out, b, ds);
    PlusAssociative(out, outs, c);
  }

  lemma {:induction false} SumFlushedAppend(a: seq<Flush>, b: seq<Flush>)
    ensures SumFlushed(a + b) == SumFlushed(a).Plus(SumFlushed(b))
  {
    if a == [] {
      assert a + b == b;
    } else {
      assert (a + b)[1..] == a[1..] + b;
      SumFlushedAppend(a[1..], b);
      PlusAssociative(a[0].delta, SumFlushed(a[1..]), SumFlushed(b));
    }
  }

  lemma {:induction false} SumFlushedTravelAppend(a: seq<Flush>, b: seq<Flush>)
    ensures SumFlushedTravel(a + b) == SumFlushedTravel(a).Plus(SumFlushedTravel(b))
  {
    if a == [] {
      assert a + b == b;
    } else {
      assert (a + b)[1..] == a[1..] + b;
      SumFlushedTravelAppend(a[1..], b);
      PlusAssociative(a[0].delta.Travel(), SumFlushedTravel(a[1..]), SumFlushedTravel(b));
    }
  }

  lemma {:induction false} SumAppend(a: seq<Sample>, b: seq<Sample>)
    ensures Sum(a + b) == Sum(a).Plus(Sum(b))
  {
    if a == [] {
      assert a + b == b;
    } else {
      assert (a + b)[1..] == a[1..] + b;
      SumAppend(a[1..], b);
    }
  }

  // ---- Conservation -------------------------------------------------------

  lemma StepConserves(a: Accumulator, s: Sample, thresholdMs: nat)
    ensures var r := Accumulate(a, s, thresholdMs);
            a.sum.Plus(s.delta) == SumFlushed(r.out).Plus(r.acc.sum)
  {
    var r := Accumulate(a, s, thresholdMs);
    assert SumFlushed(r.out) == if r.out == [] then ZERO else r.out[0].delta by {
      if r.out != [] { assert r.out[1..] == []; }
    }
  }

  /** Travel has no sign. */
  lemma TravelIsDistance(v: Vec)
    ensures v.Travel().x >= 0.0 && (v.Travel().x == v.x || v.Travel().x == -v.x)
    ensures v.Travel().y >= 0.0 && (v.Travel().y == v.y || v.Travel().y == -v.y)
  {
  }

  lemma TravelAdds(a: Vec, d: Vec)
    requires !Turns(d, a)
    ensures a.Plus(d).Travel() == a.Travel().Plus(d.Travel())
  {
  }

  lemma StepConservesTravel(a: Accumulator, s: Sample, thresholdMs: nat)
    ensures var r := Accumulate(a, s, thresholdMs);
            a.sum.Travel().Plus(s.delta.Travel()) == SumFlushedTravel(r.out).Plus(r.acc.sum.Travel())
  {
    var r := Accumulate(a, s, thresholdMs);
    assert SumFlushedTravel(r.out) == if r.out == [] then ZERO else r.out[0].delta.Travel() by {
      if r.out != [] { assert r.out[1..] == []; }
    }
    if !Turns(s.delta, a.sum) {
      TravelAdds(a.sum, s.delta);
    }
  }

  /** Nothing is created or lost: every delta is either flushed or still pending. */
  lemma {:induction false} Conservation(a: Accumulator, ss: seq<Sample>, thresholdMs: nat)
    ensures var r := Run(a, ss, thresholdMs);
            a.sum.Plus(Sum(ss)) == SumFlushed(r.out).Plus(r.acc.sum)
    decreases |ss|
  {
    if ss != [] {
      var first := Accumulate(a, ss[0], thresholdMs);
      var rest := Run(first.acc, ss[1..], thresholdMs);
      StepConserves(a, ss[0], thresholdMs);
      Conservation(first.acc, ss[1..], thresholdMs);
      Chain(a.sum, ss[0].delta, SumFlushed(first.out), first.acc.sum,
            Sum(ss[1..]), SumFlushed(rest.out), rest.acc.sum);
      SumFlushedAppend(first.out, rest.out);
    }
  }

  /** Merging never cancels movement: the distance covered on each axis is conserved as well. */
  lemma {:induction false} NoCancellation(a: Accumulator, ss: seq<Sample>, thresholdMs: nat)
    ensures var r := Run(a, ss, thresholdMs);
            a.sum.Travel().Plus(SumTravel(ss)) == SumFlushedTravel(r.out).Plus(r.acc.sum.Travel())
    decreases |ss|
  {
    if ss != [] {
      var first := Accumulate(a, ss[0], thresholdMs);
      var rest := Run(first.acc, ss[1..], thresholdMs);
      StepConservesTravel(a, ss[0], thresholdMs);
      NoCancellation(first.acc, ss[1..], thresholdMs);
      Chain(a.sum.Travel(), ss[0].delta.Travel(), SumFlushedTravel(first.out), first.acc.sum.Travel(),
            SumTravel(ss[1..]), SumFlushedTravel(rest.out), rest.acc.sum.Travel());
      SumFlushedTravelAppend(first.out, rest.out);
    }
  }

  // ---- The greedy segmenter -----------------------------------------------

  // Why a segment ends: the next sample turns back on one axis, or the segment's own
  // last sample arrived at or after the threshold.
  datatype Closing = ByTurn | ByTimeout

  datatype Segment = Segment(samples: seq<Sample>, closing: Closing)

  ghost predicate Steady(ss: seq<Sample>) {
    forall i, j :: 0 <= i < |ss| && 0 <= j < |ss| ==> !Turns(ss[i].delta, ss[j].delta)
  }

  ghost predicate Early(start: int, ss: seq<Sample>, thresholdMs: nat) {
    forall i :: 0 <= i < |ss| ==> !TimedOut(start, ss[i].at, thresholdMs)
  }

  ghost predicate TurnsOnSome(s: Sample, ss: seq<Sample>) {
    exists i :: 0 <= i < |ss| && Turns(s.delta, ss[i].delta)
  }

  /** `closed`, followed by the still open segment `open`, cuts `ss` into maximal runs that keep
      their sign on both axes and stay under the threshold, counted from `start`. */
  ghost predicate Segmented(closed: seq<Segment>, open: seq<Sample>, start: int,
                            ss: seq<Sample>, thresholdMs: nat)
    decreases |closed|
  {
    if closed == [] then
      open == ss && Steady(ss) && Early(start, ss, thresholdMs)
    else
      var c := closed[0].samples;
      && c != [] && c <= ss && Steady(c)
      && var rest := ss[|c|..];
         match closed[0].closing
         case ByTimeout =>
           && Early(start, DropLast(c), thresholdMs)
           && TimedOut(start, Last(c).at, thresholdMs)
           && Segmented(closed[1..], open, Last(c).at, rest, thresholdMs)
         case ByTurn =>
           && Early(start, c, thresholdMs)
           && rest != [] && TurnsOnSome(rest[0], c)
           && Segmented(closed[1..], open, rest[0].at, rest, thresholdMs)
  }

  /** The nonzero segment sums, each stamped and judged by the sample that closed it. */
  ghost function SegmentFlushes(closed: seq<Segment>, ss: seq<Sample>): seq<Flush> {
    if closed == [] || closed[0].samples == [] || |closed[0].samples| > |ss| then []
    else
      var c := closed[0].samples;
      var rest := ss[|c|..];
      var closer := if closed[0].closing == ByTurn && rest != [] then rest[0] else Last(c);
      var fate := if !closer.capture then Discarded else if closer.room then Queued else Refused;
      (if Sum(c) == Vec(0.0, 0.0) then [] else [Flush(Sum(c), closer.at, fate)]) + SegmentFlushes(closed[1..], rest)
  }

  /** The moment from which the open segment's threshold is counted. */
  ghost function OpenStart(closed: seq<Segment>, start: int, ss: seq<Sample>): int {
    if closed == [] || closed[0].samples == [] || |closed[0].samples| > |ss| then start
    else
      var c := closed[0].samples;
      var rest := ss[|c|..];
      var next := if closed[0].closing == ByTurn && rest != [] then rest[0].at else Last(c).at;
      OpenStart(closed[1..], next, rest)
  }

  function Axis(ss: seq<Sample>, horizontal: bool): seq<real> {
    seq(|ss|, i requires 0 <= i < |ss| => if horizontal then ss[i].delta.x else ss[i].delta.y)
  }

  function SumReals(rs: seq<real>): real {
    if rs == [] then 0.0 else rs[0] + SumReals(rs[1..])
  }

  lemma {:induction false} SumByAxis(ss: seq<Sample>)
    ensures Sum(ss) == Vec(SumReals(Axis(ss, true)), SumReals(Axis(ss, false)))
  {
    if ss != [] {
      SumByAxis(ss[1..]);
      assert Axis(ss, true)[1..] == Axis(ss[1..], true);
      assert Axis(ss, false)[1..] == Axis(ss[1..], false);
    }
  }

  ghost predicate OneSign(rs: seq<real>) {
    forall i, j :: 0 <= i < |rs| && 0 <= j < |rs| ==> !Opposes(rs[i], rs[j])
  }

  /** The sum of numbers of one sign opposes exactly what one of them opposes. */
  lemma {:induction false} SumKeepsSign(rs: seq<real>, d: real)
    requires OneSign(rs)
    ensures Opposes(d, SumReals(rs)) <==> exists i :: 0 <= i < |rs| && Opposes(d, rs[i])
  {
    if rs != [] {
      assert OneSign(rs[1..]);
      SumKeepsSign(rs[1..], d);
      SumKeepsSign(rs[1..], rs[0]);
      var tail := rs[1..];
      assert forall i :: 0 < i < |rs| ==> rs[i] == tail[i - 1];
      assert !Opposes(rs[0], SumReals(tail));
      if Opposes(d, SumReals(rs)) {
        if !Opposes(d, rs[0]) {
          assert Opposes(d, SumReals(tail));
          var i :| 0 <= i < |tail| && Opposes(d, tail[i]);
          assert Opposes(d, rs[i + 1]);
        }
      }
      if i :| 0 <= i < |rs| && Opposes(d, rs[i]) {
        if i > 0 {
          assert Opposes(d, tail[i - 1]);
        }
      }
    }
  }

  lemma TurnsOnSum(s: Sample, ss: seq<Sample>)
    requires Steady(ss)
    ensures Turns(s.delta, Sum(ss)) <==> TurnsOnSome(s, ss)
  {
    var xs, ys := Axis(ss, true), Axis(ss, false);
    assert forall i :: 0 <= i < |ss| ==> xs[i] == ss[i].delta.x && ys[i] == ss[i].delta.y;
    forall i, j | 0 <= i < |ss| && 0 <= j < |ss|
      ensures !Opposes(xs[i], xs[j]) && !Opposes(ys[i], ys[j])
    {
      assert !Turns(ss[i].delta, ss[j].delta);
    }
    SumByAxis(ss);
    SumKeepsSign(xs, s.delta.x);
    SumKeepsSign(ys, s.delta.y);
    if i :| 0 <= i < |ss| && Turns(s.delta, ss[i].delta) {
      assert Opposes(s.delta.x, xs[i]) || Opposes(s.delta.y, ys[i]);
    }
    if Turns(s.delta, Sum(ss)) {
      if Opposes(s.delta.x, SumReals(xs)) {
        var i :| 0 <= i < |xs| && Opposes(s.delta.x, xs[i]);
        assert Turns(s.delta, ss[i].delta);
      } else {
        var i :| 0 <= i < |ys| && Opposes(s.delta.y, ys[i]);
        assert Turns(s.delta, ss[i].delta);
      }
    }
  }

  lemma SteadyPrefix(ss: seq<Sample>, n: nat)
    requires Steady(ss) && n <= |ss|
    ensures Steady(ss[..n])
  {
    forall i, j | 0 <= i < n && 0 <= j < n
      ensures !Turns(ss[..n][i].delta, ss[..n][j].delta)
    {
      assert !Turns(ss[i].delta, ss[j].delta);
    }
  }

  lemma SteadyNeverTurns(ss: seq<Sample>, n: nat)
    requires Steady(ss) && n < |ss|
    ensures !TurnsOnSome(ss[n], ss[..n])
  {
    forall i | 0 <= i < n
      ensures !Turns(ss[n].delta, ss[..n][i].delta)
    {
      assert ss[..n][i] == ss[i];
    }
  }

  /** A steady, early stretch is absorbed without any output. */
  lemma {:induction false} Absorbs(start: int, done: seq<Sample>, p: seq<Sample>, rest: seq<Sample>,
                                   thresholdMs: nat)
    requires Steady(done + p) && Early(start, p, thresholdMs)
    ensures Run(Accumulator(Sum(done), start), p + rest, thresholdMs)
         == Run(Accumulator(Sum(done + p), start), rest, thresholdMs)
    decreases |p|
  {
    if p == [] {
      assert done + p == done && p + rest == rest;
    } else {
      var s := p[0];
      var ss := p + rest;
      SteadyPrefix(done + p, |done|);
      assert (done + p)[..|done|] == done;
      SteadyNeverTurns(done + p, |done|);
      TurnsOnSum(s, done);
      SumAppend(done, [s]);
      assert Sum([s]) == s.delta by { assert [s][1..] == []; }
      assert done + [s] + p[1..] == done + p;
      assert ss[0] == s && ss[1..] == p[1..] + rest;
      Absorbs(start, done + [s], p[1..], rest, thresholdMs);
      assert Accumulate(Accumulator(Sum(done), start), s, thresholdMs)
          == Outcome(Accumulator(Sum(done + [s]), start), []);
    }
  }

  function Prepend(fs: seq<Flush>, r: Outcome): Outcome { r.(out := fs + r.out) }

  /** A turning sample flushes what was pending and starts afresh at its own time. */
  lemma TurnRestarts(a: Accumulator, ss: seq<Sample>, thresholdMs: nat)
    requires thresholdMs > 0 && ss != [] && Turns(ss[0].delta, a.sum)
    ensures Run(a, ss, thresholdMs)
         == Prepend(Emit(a.sum, ss[0]), Run(Accumulator(ZERO, ss[0].at), ss, thresholdMs))
  {
    var b := Accumulator(ZERO, ss[0].at);
    assert Accumulate(b, ss[0], thresholdMs) == Outcome(Accumulator(ss[0].delta, ss[0].at), []);
  }

  /** A segment closed by a turn: nothing until the next sample, which flushes the segment's sum. */
  lemma RunsToTurn(start: int, c: seq<Sample>, rest: seq<Sample>, thresholdMs: nat)
    requires thresholdMs > 0 && Steady(c) && Early(start, c, thresholdMs)
    requires rest != [] && TurnsOnSome(rest[0], c)
    ensures Run(Accumulator(ZERO, start), c + rest, thresholdMs)
         == Prepend(Emit(Sum(c), rest[0]), Run(Accumulator(ZERO, rest[0].at), rest, thresholdMs))
  {
    var empty: seq<Sample> := [];
    assert Sum(empty) == ZERO && empty + c == c;
    Absorbs(start, empty, c, rest, thresholdMs);
    TurnsOnSum(rest[0], c);
    TurnRestarts(Accumulator(Sum(c), start), rest, thresholdMs);
  }

  /** A segment closed by the threshold: nothing until its last sample, which flushes the segment's sum. */
  lemma RunsToTimeout(start: int, c: seq<Sample>, rest: seq<Sample>, thresholdMs: nat)
    requires c != [] && Steady(c) && Early(start, DropLast(c), thresholdMs)
    requires TimedOut(start, Last(c).at, thresholdMs)
    ensures Run(Accumulator(ZERO, start), c + rest, thresholdMs)
         == Prepend(Emit(Sum(c), Last(c)), Run(Accumulator(ZERO, Last(c).at), rest, thresholdMs))
  {
    var empty: seq<Sample> := [];
    var p, s := DropLast(c), Last(c);
    assert Sum(empty) == ZERO && empty + p == p && c == p + [s];
    SteadyPrefix(c, |p|);
    assert c + rest == p + ([s] + rest);
    Absorbs(start, empty, p, [s] + rest, thresholdMs);
    SteadyNeverTurns(c, |p|);
    TurnsOnSum(s, p);
    SumAppend(p, [s]);
    assert Sum([s]) == s.delta by { assert [s][1..] == []; }
    assert ([s] + rest)[1..] == rest;
    assert Accumulate(Accumulator(Sum(p), start), s, thresholdMs)
        == Outcome(Accumulator(ZERO, s.at), Emit(Sum(c), s));
  }

  /** The accumulator computes the greedy segmentation: on every input, whatever segmentation
      meets the definition, the events flushed are its nonzero sums in order, and the
      accumulator holds the open segment. */
  lemma {:induction false} RefinesSegmenter(closed: seq<Segment>, open: seq<Sample>, start: int,
                                            ss: seq<Sample>, thresholdMs: nat)
    requires thresholdMs > 0
    requires Segmented(closed, open, start, ss, thresholdMs)
    ensures var r := Run(Accumulator(ZERO, start), ss, thresholdMs);
            && r.out == SegmentFlushes(closed, ss)
            && r.acc == Accumulator(Sum(open), OpenStart(closed, start, ss))
    decreases |closed|
  {
    if closed == [] {
      var empty: seq<Sample> := [];
      assert Sum(empty) == ZERO && empty + ss == ss && ss + empty == ss;
      Absorbs(start, empty, ss, empty, thresholdMs);
    } else {
      var c := closed[0].samples;
      var rest := ss[|c|..];
      assert ss == c + rest;
      match closed[0].closing
      case ByTurn =>
        RunsToTurn(start, c, rest, thresholdMs);
        RefinesSegmenter(closed[1..], open, rest[0].at, rest, thresholdMs);
      case ByTimeout =>
        RunsToTimeout(start, c, rest, thresholdMs);
        RefinesSegmenter(closed[1..], open, Last(c).at, rest, thresholdMs);
    }
  }

  /** Every input has a segmentation: scan with the samples pending so far in `q`. */
  lemma {:induction false} SegmentationExists(q: seq<Sample>, start: int, ss: seq<Sample>, thresholdMs: nat)
    returns (closed: seq<Segment>, open: seq<Sample>)
    requires Steady(q) && Early(start, q, thresholdMs) && thresholdMs > 0
    ensures Segmented(closed, open, start, q + ss, thresholdMs)
    decreases |ss|
  {
    if ss == [] {
      assert q + ss == q;
      closed, open := [], q;
      return;
    }
    var s := ss[0];
    if TurnsOnSome(s, q) {
      assert ss == [s] + ss[1..];
      closed, open := SegmentationExists([s], s.at, ss[1..], thresholdMs);
      assert (q + ss)[|q|..] == ss;
      var head := Segment(q, ByTurn);
      assert ([head] + closed)[1..] == closed;
      closed := [head] + closed;
    } else {
      var c := q + [s];
      SteadyExtends(q, s);
      assert q + ss == c + ss[1..];
      if TimedOut(start, s.at, thresholdMs) {
        closed, open := SegmentationExists([], s.at, ss[1..], thresholdMs);
        assert [] + ss[1..] == ss[1..];
        assert DropLast(c) == q && (q + ss)[|c|..] == ss[1..];
        var head := Segment(c, ByTimeout);
        assert ([head] + closed)[1..] == closed;
        closed := [head] + closed;
      } else {
        closed, open := SegmentationExists(c, start, ss[1..], thresholdMs);
      }
    }
  }

  lemma SteadyExtends(q: seq<Sample>, s: Sample)
    requires Steady(q) && !TurnsOnSome(s, q)
    ensures Steady(q + [s])
  {
    var c := q + [s];
    forall i, j | 0 <= i < |c| && 0 <= j < |c|
      ensures !Turns(c[i].delta, c[j].delta)
    {
      if i < |q| && j < |q| {
        assert !Turns(q[i].delta, q[j].delta);
      } else if j < |q| {
        assert !Turns(s.delta, q[j].delta);
      } else if i < |q| {
        assert !Turns(s.delta, q[i].delta);
      }
    }
  }

  /** Two segmentations of the same input cannot differ in where or why the first segment ends. */
  lemma FirstCutIsUnique(c: Segment, more: seq<Segment>, open: seq<Sample>,
                         closed': seq<Segment>, open': seq<Sample>, start: int, ss: seq<Sample>, thresholdMs: nat)
    requires Segmented([c] + more, open, start, ss, thresholdMs)
    requires Segmented(closed', open', start, ss, thresholdMs)
    ensures closed' != [] && |c.samples| >= |closed'[0].samples|
    ensures c.samples == closed'[0].samples ==> c == closed'[0]
  {
    var n := |c.samples|;
    assert c.samples == ss[..n];
    var other := if closed' == [] then ss else closed'[0].samples;
    assert other <= ss;
    if c.closing == ByTimeout {
      assert TimedOut(start, ss[n - 1].at, thresholdMs);
      assert closed' != [] ==> forall k :: 0 <= k < |other| - 1 ==> DropLast(other)[k] == ss[k];
    } else {
      assert ss[n..][0] == ss[n];
      var i :| 0 <= i < n && Turns(ss[n].delta, c.samples[i].delta);
      SteadyPrefixTurns(ss, |other|, i, n);
    }
  }

  lemma SteadyPrefixTurns(ss: seq<Sample>, m: nat, i: nat, n: nat)
    requires i < n < |ss| && m <= |ss| && Steady(ss[..m]) && Turns(ss[n].delta, ss[i].delta)
    ensures m <= n
  {
    var p := ss[..m];
    assert forall k :: 0 <= k < m ==> p[k] == ss[k];
  }

  lemma {:induction false} SegmentationIsUnique(closed: seq<Segment>, open: seq<Sample>,
                                                closed': seq<Segment>, open': seq<Sample>,
                                                start: int, ss: seq<Sample>, thresholdMs: nat)
    requires Segmented(closed, open, start, ss, thresholdMs)
    requires Segmented(closed', open', start, ss, thresholdMs)
    ensures closed == closed' && open == open'
    decreases |closed| + |closed'|
  {
    if closed != [] {
      assert closed == [closed[0]] + closed[1..];
      FirstCutIsUnique(closed[0], closed[1..], open, closed', open', start, ss, thresholdMs);
    }
    if closed' != [] {
      assert closed' == [closed'[0]] + closed'[1..];
      FirstCutIsUnique(closed'[0], closed'[1..], open', closed, open, start, ss, thresholdMs);
    }
    if closed != [] {
      var c := closed[0];
      var rest := ss[|c.samples|..];
      var next := if c.closing == ByTurn then rest[0].at else Last(c.samples).at;
      SegmentationIsUnique(closed[1..], open, closed'[1..], open', next, rest, thresholdMs);
    }
  }

  // ---- Timing -------------------------------------------------------------

  ghost predicate NonDecreasing(start: int, ss: seq<Sample>) {
    && (forall i :: 0 <= i < |ss| ==> start <= ss[i].at)
    && (forall i, j :: 0 <= i < j < |ss| ==> ss[i].at <= ss[j].at)
  }

  function Timeouts(closed: seq<Segment>): nat {
    if closed == [] then 0
    else (if closed[0].closing == ByTimeout then 1 else 0) + Timeouts(closed[1..])
  }

  /** Debounce flushes are at least a threshold apart, and whatever is pending arrived less than a
      threshold after the last reset. */
  lemma {:induction false} DebounceRate(closed: seq<Segment>, open: seq<Sample>, start: int,
                                        ss: seq<Sample>, thresholdMs: nat)
    requires thresholdMs > 0
    requires Segmented(closed, open, start, ss, thresholdMs)
    requires NonDecreasing(start, ss)
    ensures var reset := Run(Accumulator(ZERO, start), ss, thresholdMs).acc.resetAt;
            && Timeouts(closed) * (thresholdMs * 1_000_000) <= reset - start
            && (forall i :: 0 <= i < |open| ==> 0 <= open[i].at - reset < thresholdMs * 1_000_000)
    decreases |closed|
  {
    RefinesSegmenter(closed, open, start, ss, thresholdMs);
    DebounceRateFrom(closed, open, start, ss, thresholdMs, thresholdMs * 1_000_000);
  }

  lemma OneMore(n: nat, period: nat)
    ensures (n + 1) * period == n * period + period
  {
  }

  /** The threshold has passed exactly if that many milliseconds have; a clock that ran backwards never passes it. */
  lemma TimedOutAfter(start: int, at: int, thresholdMs: nat, period: nat)
    requires period == thresholdMs * 1_000_000
    ensures TimedOut(start, at, thresholdMs) <==> period <= at - start
  {
  }

  /** A sample turns exactly if it moves against the other one on some axis. */
  lemma TurnsIsOppositeSign(d: Vec, a: Vec)
    ensures Turns(d, a) <==> d.x * a.x < 0.0 || d.y * a.y < 0.0
  {
    OpposesIsNegativeProduct(d.x, a.x);
    OpposesIsNegativeProduct(d.y, a.y);
  }

  lemma OpposesIsNegativeProduct(d: real, a: real)
    ensures Opposes(d, a) <==> d * a < 0.0
  {
    if d > 0.0 && a > 0.0 {
      assert d * a > 0.0;
    } else if d < 0.0 && a < 0.0 {
      assert (-d) * (-a) > 0.0;
    } else if d > 0.0 && a < 0.0 {
      assert d * (-a) > 0.0;
    } else if d < 0.0 && a > 0.0 {
      assert (-d) * a > 0.0;
    }
  }

  lemma {:induction false} DebounceRateFrom(closed: seq<Segment>, open: seq<Sample>, start: int, ss: seq<Sample>,
                                            thresholdMs: nat, period: nat)
    requires period == thresholdMs * 1_000_000
    requires Segmented(closed, open, start, ss, thresholdMs)
    requires NonDecreasing(start, ss)
    ensures var reset := OpenStart(closed, start, ss);
            && Timeouts(closed) * period <= reset - start
            && (forall i :: 0 <= i < |open| ==> 0 <= open[i].at - reset < period)
    decreases |closed|
  {
    if closed == [] {
      forall i | 0 <= i < |open|
        ensures 0 <= open[i].at - start < period
      {
        assert !TimedOut(start, open[i].at, thresholdMs);
        TimedOutAfter(start, open[i].at, thresholdMs, period);
      }
    } else {
      var c := closed[0].samples;
      var rest := ss[|c|..];
      assert c[|c| - 1] == ss[|c| - 1];
      TimedOutAfter(start, Last(c).at, thresholdMs, period);
      var next := if closed[0].closing == ByTurn then rest[0].at else Last(c).at;
      LaterSamples(start, ss, |c|, next);
      DebounceRateFrom(closed[1..], open, next, rest, thresholdMs, period);
      OneMore(Timeouts(closed[1..]), period);
    }
  }

  lemma LaterSamples(start: int, ss: seq<Sample>, n: nat, next: int)
    requires NonDecreasing(start, ss) && 0 < n <= |ss|
    requires next == ss[n - 1].at || (n < |ss| && next == ss[n].at)
    ensures start <= next && NonDecreasing(next, ss[n..])
  {
    assert forall i :: 0 <= i < |ss| - n ==> ss[n..][i] == ss[n + i];
  }
}
