/** The pipe between the service and its client: newline-framed messages, and state snapshots forwarded from
    a watch channel. */
module Ipc {
  import opened Basics
  import opened AppModel

  // ---- Framing ------------------------------------------------------------

  const NEWLINE: char := '\n'
  const RETURN: char := '\r'

  function Frame(messages: seq<string>): string {
    if messages == [] then [] else messages[0] + [NEWLINE] + Frame(messages[1..])
  }

  /** Complete lines, and the text that still waits for its newline. */
  datatype Parsed = Parsed(lines: seq<string>, rest: string)

  /** The reader drops a carriage return before the newline. */
  function StripReturn(line: string): string {
    if line != [] && Last(line) == RETURN then DropLast(line) else line
  }

  function Parse(pending: string, text: string): Parsed
    decreases |text|
  {
    if text == [] then Parsed([], pending)
    else if text[0] == NEWLINE then
      var later := Parse([], text[1..]);
      Parsed([StripReturn(pending)] + later.lines, later.rest)
    else Parse(pending + [text[0]], text[1..])
  }

  /** Reads chunks as they arrive and returns the lines each one completes. */
  class LineReader {
    var pending: string

    constructor ()
      ensures pending == []
    {
      pending := [];
    }

    method Feed(chunk: string) returns (lines: seq<string>)
      modifies this
      ensures Parsed(lines, pending) == Parse(old(pending), chunk)
    {
      lines := [];
      assert chunk[0..] == chunk;
      for i := 0 to |chunk|
        invariant var later := Parse(pending, chunk[i..]);
                  Parse(old(pending), chunk) == Parsed(lines + later.lines, later.rest)
      {
        assert chunk[i..][1..] == chunk[i + 1..];
        if chunk[i] == NEWLINE {
          Regroup(lines, [StripReturn(pending)], Parse([], chunk[i + 1..]).lines);
          lines, pending := lines + [StripReturn(pending)], [];
        } else {
          pending := pending + [chunk[i]];
        }
      }
    }
  }

  /** Cutting the text anywhere makes no difference to the lines. */
  lemma {:induction false} ParseSplits(pending: string, a: string, b: string)
    ensures var first := Parse(pending, a);
            var second := Parse(first.rest, b);
            Parse(pending, a + b) == Parsed(first.lines + second.lines, second.rest)
    decreases |a|
  {
    if a == [] {
      assert a + b == b;
    } else {
      assert (a + b)[1..] == a[1..] + b;
      ParseSplits(if a[0] == NEWLINE then [] else pending + [a[0]], a[1..], b);
    }
  }

  lemma {:induction false} ParseWithoutNewline(pending: string, text: string)
    requires NEWLINE !in text
    ensures Parse(pending, text) == Parsed([], pending + text)
    decreases |text|
  {
    if text != [] {
      ParseWithoutNewline(pending + [text[0]], text[1..]);
      assert pending + [text[0]] + text[1..] == pending + text;
    }
  }

  function StripAll(messages: seq<string>): seq<string> {
    if messages == [] then [] else [StripReturn(messages[0])] + StripAll(messages[1..])
  }

  lemma {:induction false} ParseUndoesFrame(messages: seq<string>)
    requires forall m :: m in messages ==> NEWLINE !in m
    ensures Parse([], Frame(messages)) == Parsed(StripAll(messages), [])
  {
    if messages != [] {
      var m, rest := messages[0], messages[1..];
      assert forall x :: x in rest ==> x in messages;
      ParseUndoesFrame(rest);
      ParseWithoutNewline([], m);
      assert [] + m == m;
      var tail := [NEWLINE] + Frame(rest);
      assert m + [NEWLINE] + Frame(rest) == m + tail && tail[1..] == Frame(rest);
      ParseSplits([], m, tail);
    }
  }

  lemma {:induction false} StripsNothing(messages: seq<string>)
    ensures StripAll(messages) == messages <==> forall m :: m in messages ==> StripReturn(m) == m
  {
    if messages != [] {
      StripsNothing(messages[1..]);
      assert StripAll(messages)[0] == StripReturn(messages[0]) && StripAll(messages)[1..] == StripAll(messages[1..]);
      assert messages == [messages[0]] + messages[1..];
      if StripAll(messages) == messages {
        assert StripAll(messages[1..]) == messages[1..];
      }
    }
  }

  /** However the bytes are cut into chunks, and wherever the connection breaks, newline-free messages arrive whole and
      in order, as a prefix of what was sent; they arrive unchanged exactly if none ends in a carriage return. */
  lemma MessagesArriveInOrder(messages: seq<string>, received: string, lost: string)
    requires forall m :: m in messages ==> NEWLINE !in m
    requires Frame(messages) == received + lost
    ensures Parse([], received).lines <= StripAll(messages)
    ensures lost == [] ==> Parse([], received) == Parsed(StripAll(messages), [])
    ensures StripAll(messages) == messages <==> forall m :: m in messages ==> m == [] || Last(m) != RETURN
  {
    ParseUndoesFrame(messages);
    ParseSplits([], received, lost);
    StripsNothing(messages);
    if lost == [] {
      assert received + lost == received;
    }
    assert forall m: string {:trigger StripReturn(m)} :: StripReturn(m) == m <==> m == [] || Last(m) != RETURN;
  }

  /** A message of the program is the JSON text of an object, without line breaks. */
  predicate IsJsonObject(m: string) { m != [] && Last(m) == '}' && NEWLINE !in m }

  /** So the messages of the program always arrive unchanged. */
  lemma ObjectsArriveUnchanged(messages: seq<string>, received: string, lost: string)
    requires forall m :: m in messages ==> IsJsonObject(m)
    requires Frame(messages) == received + lost
    ensures Parse([], received).lines <= messages
    ensures lost == [] ==> Parse([], received) == Parsed(messages, [])
  {
    MessagesArriveInOrder(messages, received, lost);
  }

  // ---- State snapshots ----------------------------------------------------

  /** States are numbered in the order of publication. `seen` is the version the forwarder last marked as seen,
      `pipe` holds the versions in flight, and `viewed` those the client has taken, oldest first. */
  datatype Link = Link(published: seq<AppState>, seen: nat, pipe: seq<nat>, viewed: seq<nat>) {
    function Latest(): int { |published| - 1 }
  }

  datatype Step = Publish(state: AppState) | Forward | Deliver

  /** A connection begins with the current state, which is sent without being marked as seen. */
  function Connect(published: seq<AppState>, seen: nat): Link
    requires published != []
  {
    Link(published, seen, [|published| - 1], [])
  }

  function Next(l: Link, step: Step): Link {
    match step
    case Publish(state) => l.(published := l.published + [state])
    case Forward =>
      if l.seen < l.Latest() then l.(seen := l.Latest(), pipe := l.pipe + [l.Latest()]) else l
    case Deliver =>
      if l.pipe == [] then l else l.(pipe := l.pipe[1..], viewed := l.viewed + [l.pipe[0]])
  }

  function Run(l: Link, steps: seq<Step>): Link
    decreases |steps|
  {
    if steps == [] then l else Run(Next(l, steps[0]), steps[1..])
  }

  ghost predicate NonDecreasing(versions: seq<nat>) {
    forall i, j :: 0 <= i < j < |versions| ==> versions[i] <= versions[j]
  }

  ghost predicate Inv(l: Link) {
    var all := l.viewed + l.pipe;
    && all != [] && NonDecreasing(all)
    && Last(all) <= l.Latest() && l.seen <= l.Latest()
    && (l.seen == l.Latest() ==> Last(all) == l.Latest())
  }

  lemma StepKeepsInv(l: Link, step: Step)
    requires Inv(l)
    ensures Inv(Next(l, step))
  {
    var n := Next(l, step);
    var all := l.viewed + l.pipe;
    match step
    case Publish(_) =>
    case Forward =>
      if l.seen < l.Latest() {
        assert n.viewed + n.pipe == all + [l.Latest()];
        assert forall i :: 0 <= i < |all| ==> all[i] <= Last(all);
      }
    case Deliver =>
      if l.pipe != [] {
        assert l.pipe == [l.pipe[0]] + l.pipe[1..];
        Regroup(l.viewed, [l.pipe[0]], l.pipe[1..]);
        assert n.viewed + n.pipe == all;
      }
  }

  lemma {:induction false} RunKeepsInv(l: Link, steps: seq<Step>)
    requires Inv(l)
    ensures Inv(Run(l, steps))
    decreases |steps|
  {
    if steps != [] {
      StepKeepsInv(l, steps[0]);
      RunKeepsInv(Next(l, steps[0]), steps[1..]);
    }
  }

  /** Within one connection the client sees states in the order of their publication, perhaps skipping some, and
      once the forwarder has caught up and the pipe is empty it sees the latest. */
  lemma ClientFollowsService(published: seq<AppState>, seen: nat, steps: seq<Step>)
    requires published != [] && seen < |published|
    ensures var end := Run(Connect(published, seen), steps);
            && NonDecreasing(end.viewed)
            && (forall v :: v in end.viewed ==> v < |end.published|)
            && (end.pipe == [] && end.seen == end.Latest() ==> end.viewed != [] && Last(end.viewed) == end.Latest())
  {
    RunKeepsInv(Connect(published, seen), steps);
    var end := Run(Connect(published, seen), steps);
    var all := end.viewed + end.pipe;
    assert forall i :: 0 <= i < |end.viewed| ==> all[i] == end.viewed[i] && all[i] <= Last(all);
    if end.pipe == [] {
      assert all == end.viewed;
    }
  }

  function Deliveries(n: nat): seq<Step> { if n == 0 then [] else [Deliver] + Deliveries(n - 1) }

  lemma {:induction false} DeliversAll(l: Link)
    ensures Run(l, Deliveries(|l.pipe|)) == l.(pipe := [], viewed := l.viewed + l.pipe)
    decreases |l.pipe|
  {
    if l.pipe == [] {
      assert l.viewed + [] == l.viewed;
    } else {
      var n := Next(l, Deliver);
      assert Deliveries(|l.pipe|)[1..] == Deliveries(|n.pipe|);
      DeliversAll(n);
      Regroup(l.viewed, [l.pipe[0]], l.pipe[1..]);
      assert [l.pipe[0]] + l.pipe[1..] == l.pipe;
    }
  }

  /** And it gets there: from every reachable state, one turn of the forwarder and the delivery of what is in the
      pipe show the client the latest state. */
  lemma ClientCatchesUp(published: seq<AppState>, seen: nat, steps: seq<Step>)
    requires published != [] && seen < |published|
    ensures var l := Next(Run(Connect(published, seen), steps), Forward);
            var end := Run(l, Deliveries(|l.pipe|));
            end.viewed != [] && Last(end.viewed) == end.Latest() && end.pipe == [] && end.published == l.published
  {
    var before := Run(Connect(published, seen), steps);
    RunKeepsInv(Connect(published, seen), steps);
    StepKeepsInv(before, Forward);
    DeliversAll(Next(before, Forward));
  }
}
