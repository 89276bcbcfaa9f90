/** The lines the device prints, buffered by the BLE task until a client reads them. */
module Serial {
  import opened Basics

  class SerialBuffer {
    var lines: seq<string>

    constructor ()
      ensures lines == []
    {
      lines := [];
    }

    /** Empty data is not buffered. */
    method Push(text: string)
      modifies this
      ensures lines == old(lines) + if text == "" then [] else [text]
    {
      if text != "" {
        lines := lines + [text];
      }
    }

    method Read(clear: bool) returns (r: seq<string>)
      modifies this
      ensures r == old(lines)
      ensures lines == if clear then [] else old(lines)
    {
      r := lines;
      if clear {
        lines := [];
      }
    }
  }

  // ---- Interleavings ------------------------------------------------------

  datatype Step = Push(text: string) | Read(clear: bool)

  function Next(buffer: seq<string>, step: Step): seq<string> {
    match step
    case Push(text) => if text == "" then buffer else buffer + [text]
    case Read(clear) => if clear then [] else buffer
  }

  function Run(buffer: seq<string>, steps: seq<Step>): seq<string>
    decreases |steps|
  {
    if steps == [] then buffer else Run(Next(buffer, steps[0]), steps[1..])
  }

  /** The nonempty lines pushed, in order. */
  function Pushed(steps: seq<Step>): seq<string> {
    if steps == [] then []
    else if steps[0].Push? && steps[0].text != "" then [steps[0].text] + Pushed(steps[1..])
    else Pushed(steps[1..])
  }

  /** What the clearing reads returned, one after the other. */
  function Cleared(buffer: seq<string>, steps: seq<Step>): seq<string>
    decreases |steps|
  {
    if steps == [] then []
    else (if steps[0].Read? && steps[0].clear then buffer else []) + Cleared(Next(buffer, steps[0]), steps[1..])
  }

  /** Under every interleaving of pushes and reads each nonempty line is delivered by exactly one clearing read or is
      still in the buffer, in the order of the pushes. */
  lemma {:induction false} DeliveredOnce(buffer: seq<string>, steps: seq<Step>)
    ensures Cleared(buffer, steps) + Run(buffer, steps) == buffer + Pushed(steps)
    decreases |steps|
  {
    if steps != [] {
      var n, rest := Next(buffer, steps[0]), steps[1..];
      DeliveredOnce(n, rest);
      match steps[0]
      case Push(text) =>
        assert n + Pushed(rest) == buffer + Pushed(steps);
      case Read(clear) =>
        if clear {
          Regroup(buffer, Cleared(n, rest), Run(n, rest));
        }
    }
  }

  predicate Clears(step: Step) { step.Read? && step.clear }

  /** The steps after the last clearing read. */
  function SinceClear(steps: seq<Step>): seq<Step> {
    if steps == [] || Clears(Last(steps)) then [] else SinceClear(DropLast(steps)) + [Last(steps)]
  }

  lemma {:induction false} RunAppend(buffer: seq<string>, a: seq<Step>, b: seq<Step>)
    ensures Run(buffer, a + b) == Run(Run(buffer, a), b)
    decreases |a|
  {
    if a == [] {
      assert a + b == b;
    } else {
      assert (a + b)[1..] == a[1..] + b;
      RunAppend(Next(buffer, a[0]), a[1..], b);
    }
  }

  lemma {:induction false} PushedAppend(a: seq<Step>, b: seq<Step>)
    ensures Pushed(a + b) == Pushed(a) + Pushed(b)
  {
    if a == [] {
      assert a + b == b;
    } else {
      assert (a + b)[1..] == a[1..] + b;
      PushedAppend(a[1..], b);
    }
  }

  /** A read, clearing or not, returns exactly the nonempty lines pushed since the last clearing read. */
  lemma {:induction false} ReadReturnsSinceClear(steps: seq<Step>)
    ensures Run([], steps) == Pushed(SinceClear(steps))
    decreases |steps|
  {
    if steps != [] {
      var before, last := DropLast(steps), Last(steps);
      ReadReturnsSinceClear(before);
      assert steps == before + [last] && [last][1..] == [];
      RunAppend([], before, [last]);
      assert Run(Run([], before), [last]) == Next(Run([], before), last);
      if !Clears(last) {
        PushedAppend(SinceClear(before), [last]);
        assert Pushed([last]) == if last.Push? && last.text != "" then [last.text] else [];
      }
    }
  }
}
