/** What the keys do on every screen of the client, and what its main loop makes of the service's reports. */
module ClientKeys {
  import opened Basics
  import opened AppModel
  import opened Primitives
  import opened Navigation
  import Packets

  // ---- Losing the service -------------------------------------------------

  /** Taking an unseen report of the service: if the service was there and is reported gone, only a new home screen is
      left; otherwise the screens are those that the automatic transitions alone lead to. */
  lemma LostServiceLeadsHome(t: Tui)
    requires t.serviceWatch.unseen && !t.serviceWatch.closed
    ensures var u := Sync(t);
            && u.serviceAvailable == t.serviceWatch.value && !u.serviceWatch.unseen
            && u.exit == t.exit && u.sent == t.sent
            && if t.serviceAvailable && !t.serviceWatch.value then Path(u) == [Home(None, "")]
               else Path(u) == if t.appWatch.unseen && !t.appWatch.closed
                               then Path(AutoTransition(t.(appState := t.appWatch.value))) else Path(t)
  {
  }

  /** Without a report of the service its availability and the stack stay; the application's state is taken as
      reported. */
  lemma AppReportIsTaken(t: Tui)
    requires !(t.serviceWatch.unseen && !t.serviceWatch.closed)
    ensures var u := Sync(t);
            && u.serviceAvailable == t.serviceAvailable && u.exit == t.exit && u.sent == t.sent
            && if t.appWatch.unseen && !t.appWatch.closed
               then u.appState == t.appWatch.value && !u.appWatch.unseen
                    && Path(u) == Path(AutoTransition(t.(appState := t.appWatch.value)))
               else u == t
  {
  }

  lemma {:induction false} RunAppend(f: Functions, t: Tui, a: seq<Step>, b: seq<Step>)
    ensures Run(f, t, a + b) == Run(f, Run(f, t, a), b)
    decreases |a|
  {
    if a == [] {
      assert a + b == b;
    } else {
      assert (a + b)[1..] == a[1..] + b;
      RunAppend(f, Next(f, t, a[0]), a[1..], b);
    }
  }

  lemma TwoSteps(f: Functions, t: Tui, a: Step, b: Step)
    ensures Run(f, t, [a, b]) == Next(f, Next(f, t, a), b)
  {
    assert [a, b][1..] == [b] && [b][1..] == [];
    assert Run(f, t, [a, b]) == Run(f, Next(f, t, a), [b]);
  }

  /** After any run at whose end the service is there, its loss is reported and taken in, the client shows nothing but a
      new home screen, and the next Backspace quits. */
  lemma LosingServiceShowsHome(f: Functions, app: Watch<AppState>, service: Watch<bool>, steps: seq<Step>)
    requires var t := Run(f, Start(app, service), steps);
             t.serviceAvailable && !t.exit && !t.serviceWatch.closed
    ensures var end := Run(f, Start(app, service), steps + [ServiceChanges(false), Synchronise]);
            && end.current == Home(None, "") && end.stack == [] && !end.serviceAvailable && !end.exit
            && PressKey(f, end, Backspace, true).exit
  {
    var t := Run(f, Start(app, service), steps);
    RunAppend(f, Start(app, service), steps, [ServiceChanges(false), Synchronise]);
    TwoSteps(f, t, ServiceChanges(false), Synchronise);
    var reported := Next(f, t, ServiceChanges(false));
    LostServiceLeadsHome(reported);
    var end := Sync(reported);
    assert Path(end)[|end.stack|] == end.current && |Path(end)| == 1;
  }

  // ---- Automatic transitions ----------------------------------------------

  /** A device is connected, and authenticated or refused by itself. */
  predicate DeviceIs(app: AppState, authenticated: bool) {
    && app.connectedDevice.Some? && app.connectedDevice.value.state.Connected?
    && var auth := app.connectedDevice.value.state.authState;
       if authenticated then auth.Authenticated? else auth.AuthenticationFailed?
  }

  /** Where one pass of the automatic transitions leads: a refused device to an empty pairing screen on top of the
      connected one, a connected device to the connected screen, devices found to their list, with the first line
      selected. */
  lemma AutoTransitionLeads(t: Tui)
    ensures var u, app := AutoTransition(t), t.appState;
            var waits := t.current.Scanning? || t.current.DeviceList?;
            var asks := (waits || t.current.Connected?) && DeviceIs(app, false);
            && u.current == (if asks then PairingInput("", "Enter peer public key (base64):")
                             else if waits && app.connectedDevice.Some? then Screen.Connected(Some(0))
                             else if t.current.Scanning? && app.devices != [] then DeviceList(Some(0), None)
                             else t.current)
            && u.stack == (if asks then t.stack + [if waits then Screen.Connected(Some(0)) else t.current] else t.stack)
            && u == t.(current := u.current, stack := u.stack)
  {
  }

  // ---- Which command a key sends ------------------------------------------

  predicate Chosen(s: Screen, key: KeyCode, i: nat)
    requires HasMenu(s)
  {
    key == Enter && s.selected == Some(i)
  }

  predicate IsIdleList(s: Screen) { s.DeviceList? && s.connectingTo.None? }

  /** Shutting down takes the X key, or Enter on the second line of the home screen, while the service is there. */
  lemma ShutsDownExactly(f: Functions, s: Screen, key: KeyCode, app: AppState, service: bool)
    ensures var r := ScreenKey(f, s, key, app, service);
            && (r.command == Some(KillService)
                <==> s.Home? && service && (key == Char('x') || key == Char('X') || Chosen(s, key, 1)))
            && (r.command == Some(KillService) ==> r.screen == Home(s.selected, "Shutting down service..."))
  {
  }

  /** Scanning takes Enter on the first line of the home screen while the service is there, or the S key on a device
      list that is not connecting; both lead to the scanning screen. */
  lemma ScansExactly(f: Functions, s: Screen, key: KeyCode, app: AppState, service: bool)
    ensures var r := ScreenKey(f, s, key, app, service);
            && (r.command == Some(ScanForDevices)
                <==> || (s.Home? && service && Chosen(s, key, 0))
                     || (IsIdleList(s) && (key == Char('s') || key == Char('S'))))
            && (r.command == Some(ScanForDevices) <==> r.signal == Goto(Scanning))
  {
  }

  /** Disconnecting takes the D key on the connected screen, or Enter on the line that says so. */
  lemma DisconnectsExactly(f: Functions, s: Screen, key: KeyCode, app: AppState, service: bool)
    ensures ScreenKey(f, s, key, app, service).command == Some(DisconnectDevice)
       <==> s.Connected? && (key == Char('d') || key == Char('D')
                             || (if DeviceIs(app, true) then Chosen(s, key, 0) else Chosen(s, key, 1)))
  {
  }

  /** Connecting takes Enter on a line of a device list that is not connecting yet, and is to the device in that
      line. */
  lemma ConnectsExactly(f: Functions, s: Screen, key: KeyCode, app: AppState, service: bool, d: Device)
    ensures var r := ScreenKey(f, s, key, app, service);
            && (r.command == Some(ConnectToDevice(d))
                <==> IsIdleList(s) && key == Enter && s.selected.Some? && DeviceAt(app, s.selected.value) == Some(d))
            && (r.command == Some(ConnectToDevice(d)) ==> r.screen == DeviceList(s.selected, Some(d.name)))
  {
  }

  /** Pairing takes Enter on the pairing screen with text that decodes, once trimmed, to thirty-three bytes, while a
      device is connected. */
  lemma PairsExactly(f: Functions, s: Screen, key: KeyCode, app: AppState, service: bool, d: Device, pubKey: string)
    ensures ScreenKey(f, s, key, app, service).command == Some(PairDevice(d, pubKey))
       <==> && s.PairingInput? && key == Enter && pubKey == Packets.Trim(s.input)
            && f.decode64(pubKey).Some? && |f.decode64(pubKey).value| == 33 && app.connectedDevice == Some(d)
    ensures var r := ScreenKey(f, s, key, app, service);
            r.command == Some(PairDevice(d, pubKey)) ==> r.screen == PairingInput("", s.status)
  {
  }

  /** No key sends anything else. */
  lemma NoOtherCommands(f: Functions, s: Screen, key: KeyCode, app: AppState, service: bool)
    ensures var c := ScreenKey(f, s, key, app, service).command;
            c.Some? ==> || c.value.KillService? || c.value.ScanForDevices? || c.value.DisconnectDevice?
                        || c.value.ConnectToDevice? || c.value.PairDevice?
  {
  }

  // ---- Where a key leads --------------------------------------------------

  predicate IsQuit(key: KeyCode) { key == Char('q') || key == Char('Q') || key == Esc }

  /** A screen is left by Backspace, unless it deletes a character; by Q and Escape, except that a list that connects
      ignores them and that Q can be typed; by quitting; and by disconnecting and pairing. */
  lemma LeavesExactly(f: Functions, s: Screen, key: KeyCode, app: AppState, service: bool)
    ensures var r := ScreenKey(f, s, key, app, service);
            r.signal == Back <==>
              || (key == Backspace && !(s.PairingInput? && s.input != ""))
              || (IsQuit(key) && !s.PairingInput? && !(s.DeviceList? && s.connectingTo.Some?))
              || (key == Esc && s.PairingInput?)
              || (s.Home? && Chosen(s, key, if service then 2 else 1))
              || (r.command.Some? && (r.command.value.DisconnectDevice? || r.command.value.PairDevice?))
  {
  }

  /** Keys lead on only to the scanning screen, and from the first line of the connected screen, while the device is not
      authenticated, to an empty pairing screen. */
  lemma LeadsOnExactly(f: Functions, s: Screen, key: KeyCode, app: AppState, service: bool)
    ensures var r := ScreenKey(f, s, key, app, service);
            r.signal.Goto? <==>
              || r.command == Some(ScanForDevices)
              || (s.Connected? && Chosen(s, key, 0) && !DeviceIs(app, true))
    ensures var r := ScreenKey(f, s, key, app, service);
            r.signal.Goto? && r.command.None? ==> r.signal.screen.PairingInput? && r.signal.screen.input == ""
  {
  }

  // ---- What a key changes on its screen -----------------------------------

  /** Elsewhere than where text is typed, only Up, Down, Enter and the X key change anything on the screen. */
  lemma OtherKeysChangeNothing(f: Functions, s: Screen, key: KeyCode, app: AppState, service: bool)
    requires !s.PairingInput? && !key.Up? && !key.Down? && !key.Enter? && key != Char('x') && key != Char('X')
    ensures ScreenKey(f, s, key, app, service).screen == s
  {
  }

  /** Backspace takes back the last character typed. */
  lemma BackspaceUndoesTyping(f: Functions, t: Tui, c: char, room: bool, room': bool)
    requires t.current.PairingInput?
    ensures PressKey(f, PressKey(f, t, Char(c), room), Backspace, room') == t
  {
    var input := t.current.input;
    assert DropLast(input + [c]) == input;
    assert t.sent + [] == t.sent;
  }

  /** A key that is refused stays as it was typed, and the status says why. */
  lemma RefusedKeyStays(f: Functions, s: Screen, app: AppState, service: bool)
    requires s.PairingInput?
    ensures var r, decoded := ScreenKey(f, s, Enter, app, service), f.decode64(Packets.Trim(s.input));
            r.command.None? ==>
              && r.signal == Stay && r.screen.PairingInput? && r.screen.input == s.input
              && r.screen.status == if decoded.None? then "Invalid base64. Try again."
                                    else if |decoded.value| != 33
                                    then "Invalid key: expected 33 bytes (compressed P-256)."
                                    else s.status
  {
  }

  function Presses(key: KeyCode, n: nat): seq<Step> { if n == 0 then [] else [Press(key, true)] + Presses(key, n - 1) }

  predicate HasSelection(s: Screen) { s.Home? || s.Connected? || IsIdleList(s) }

  lemma DownSelectsNext(f: Functions, t: Tui)
    requires !t.exit && HasSelection(t.current)
    requires t.current.selected.Some? ==> t.current.selected.value < USIZE_MAX
    ensures Next(f, t, Press(Down, true))
         == t.(current := Redraw(t.current, Some(if t.current.selected.None? then 0 else t.current.selected.value + 1)))
  {
    assert t.sent + [] == t.sent;
  }

  /** Every line of a menu can be reached: n presses of Down select the line n below the selected one, or the nth if
      none is selected. */
  lemma {:induction false} DownReachesEveryLine(f: Functions, t: Tui, n: nat)
    requires !t.exit && HasSelection(t.current)
    requires n + (if t.current.selected.None? then 0 else t.current.selected.value + 1) <= USIZE_MAX
    ensures var first := if t.current.selected.None? then 0 else t.current.selected.value + 1;
            Run(f, t, Presses(Down, n)) == if n == 0 then t else t.(current := Redraw(t.current, Some(first + n - 1)))
    decreases n
  {
    if n > 0 {
      var u := Next(f, t, Press(Down, true));
      DownSelectsNext(f, t);
      assert Presses(Down, n)[1..] == Presses(Down, n - 1);
      DownReachesEveryLine(f, u, n - 1);
    }
  }

  /** Up takes back Down, and stays on the first line. */
  lemma UpUndoesDown(f: Functions, t: Tui, i: nat)
    requires !t.exit && HasSelection(t.current) && t.current.selected == Some(i) && i < USIZE_MAX
    ensures Next(f, Next(f, t, Press(Down, true)), Press(Up, true)) == t
    ensures i == 0 ==> Next(f, t, Press(Up, true)) == t
  {
    DownSelectsNext(f, t);
    assert t.sent + [] == t.sent;
  }

  // ---- Leaving restores ---------------------------------------------------

  /** A screen that was covered by another comes back as it was left. */
  lemma BackRestores(t: Tui, screen: Screen)
    requires !t.exit
    ensures Navigate(Navigate(t, Goto(screen)), Back) == t
    ensures Navigate(t, Goto(screen)).current == screen
  {
    assert DropLast(t.stack + [t.current]) == t.stack;
  }
}
