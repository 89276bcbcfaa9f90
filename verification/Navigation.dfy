/** The screens of the terminal client and the stack they are kept on. */
module Navigation {
  import opened Basics
  import opened AppModel
  import opened Primitives
  import Packets

  datatype KeyCode = Up | Down | Enter | Backspace | Esc | Char(c: char) | OtherKeyCode

  const USIZE_MAX: nat := 0xFFFF_FFFF_FFFF_FFFF

  datatype Screen =
    | Home(selected: Option<nat>, status: string)
    | Scanning
    | DeviceList(selected: Option<nat>, connectingTo: Option<string>)
    | Connected(selected: Option<nat>)
    | PairingInput(input: string, status: string)

  datatype NavSignal = Back | Goto(screen: Screen) | Stay

  /** A watch channel as its receiver sees it. */
  datatype Watch<T> = Watch(value: T, unseen: bool, closed: bool) {
    predicate HasChanged() { unseen && !closed }
    function Seen(): Watch<T> { this.(unseen := false) }
  }

  datatype Tui = Tui(
    current: Screen,
    stack: seq<Screen>,
    appState: AppState,
    serviceAvailable: bool,
    exit: bool,
    appWatch: Watch<AppState>,
    serviceWatch: Watch<bool>,
    sent: seq<AppCommand>)

  const NEW_HOME: Screen := Home(None, "")
  const NEW_DEVICE_LIST: Screen := DeviceList(Some(0), None)
  const NEW_CONNECTED: Screen := Screen.Connected(Some(0))
  const NEW_PAIRING: Screen := PairingInput("", "Enter peer public key (base64):")

  function Start(app: Watch<AppState>, service: Watch<bool>): Tui {
    Tui(NEW_HOME, [], app.value, service.value, false, app, service, [])
  }

  // ---- Keys ---------------------------------------------------------------

  function SelectNext(selected: Option<nat>): Option<nat> {
    match selected
    case None => Some(0)
    case Some(i) => Some(if i < USIZE_MAX then i + 1 else i)
  }

  function SelectPrevious(selected: Option<nat>): Option<nat> {
    match selected
    case None => Some(USIZE_MAX)
    case Some(i) => Some(if i > 0 then i - 1 else 0)
  }

  function IsLetter(key: KeyCode, lower: char, upper: char): bool {
    key == Char(lower) || key == Char(upper)
  }

  function Leaves(key: KeyCode): bool { IsLetter(key, 'q', 'Q') || key == Esc }

  /** The screen after a key, where it leads, and the command it sends. */
  datatype Reaction = Reaction(screen: Screen, signal: NavSignal, command: Option<AppCommand>)

  function React(s: Screen, signal: NavSignal): Reaction { Reaction(s, signal, None) }

  function HomeKey(s: Screen, key: KeyCode, service: bool): Reaction
    requires s.Home?
  {
    var stopping := Home(s.selected, "Shutting down service...");
    match key
    case Backspace => React(s, Back)
    case Enter =>
      if service then
        match s.selected
        case Some(0) => Reaction(s, Goto(Scanning), Some(ScanForDevices))
        case Some(1) => Reaction(stopping, Stay, Some(KillService))
        case Some(2) => React(s, Back)
        case _ => React(s, Stay)
      else
        (match s.selected
         case Some(0) => React(Home(s.selected, "Starting service..."), Stay)
         case Some(1) => React(s, Back)
         case _ => React(s, Stay))
    case Up => React(Home(SelectPrevious(s.selected), s.status), Stay)
    case Down => React(Home(SelectNext(s.selected), s.status), Stay)
    case _ =>
      if IsLetter(key, 'x', 'X') && service then Reaction(stopping, Stay, Some(KillService))
      else if Leaves(key) then React(s, Back)
      else React(s, Stay)
  }

  function DeviceListKey(s: Screen, key: KeyCode, app: AppState): Reaction
    requires s.DeviceList?
  {
    if key == Backspace then React(s, Back)
    else if s.connectingTo.Some? then React(s, Stay)
    else
      match key
      case Enter =>
        if s.selected.Some? && s.selected.value < |app.devices| then
          var device := app.devices[s.selected.value];
          Reaction(s.(connectingTo := Some(device.name)), Stay, Some(ConnectToDevice(device)))
        else React(s, Stay)
      case Up => React(s.(selected := SelectPrevious(s.selected)), Stay)
      case Down => React(s.(selected := SelectNext(s.selected)), Stay)
      case _ =>
        if IsLetter(key, 's', 'S') then Reaction(s, Goto(Scanning), Some(ScanForDevices))
        else if Leaves(key) then React(s, Back)
        else React(s, Stay)
  }

  function AuthOf(app: AppState): Option<AuthState> {
    match app.connectedDevice
    case None => None
    case Some(d) =>
      match d.state
      case Connected(auth, _) => Some(auth)
      case Disconnected => None
  }

  function IsAuthenticated(app: AppState): bool { AuthOf(app).Some? && AuthOf(app).value.Authenticated? }

  function ConnectedKey(s: Screen, key: KeyCode, app: AppState): Reaction
    requires s.Connected?
  {
    match key
    case Backspace => React(s, Back)
    case Enter =>
      if s.selected == Some(0) && !IsAuthenticated(app) then React(s, Goto(NEW_PAIRING))
      else if s.selected == Some(if IsAuthenticated(app) then 0 else 1) then Reaction(s, Back, Some(DisconnectDevice))
      else React(s, Stay)
    case Up => React(s.(selected := SelectPrevious(s.selected)), Stay)
    case Down => React(s.(selected := SelectNext(s.selected)), Stay)
    case _ =>
      if IsLetter(key, 'd', 'D') then Reaction(s, Back, Some(DisconnectDevice))
      else if Leaves(key) then React(s, Back)
      else React(s, Stay)
  }

  /** A key is accepted when it decodes to the thirty-three bytes of a compressed point. */
  function Submit(f: Functions, s: Screen, app: AppState): Reaction
    requires s.PairingInput?
  {
    var trimmed := Packets.Trim(s.input);
    match f.decode64(trimmed)
    case None => React(s.(status := "Invalid base64. Try again."), Stay)
    case Some(bytes) =>
      if |bytes| != COMPRESSED_KEY_SIZE then
        React(s.(status := "Invalid key: expected 33 bytes (compressed P-256)."), Stay)
      else if app.connectedDevice.None? then React(s, Stay)
      else Reaction(s.(input := ""), Back, Some(PairDevice(app.connectedDevice.value, trimmed)))
  }

  function PairingKey(f: Functions, s: Screen, key: KeyCode, app: AppState): Reaction
    requires s.PairingInput?
  {
    match key
    case Backspace => if s.input == "" then React(s, Back) else React(s.(input := DropLast(s.input)), Stay)
    case Enter => Submit(f, s, app)
    case Char(c) => React(s.(input := s.input + [c]), Stay)
    case Esc => React(s, Back)
    case _ => React(s, Stay)
  }

  function ScreenKey(f: Functions, s: Screen, key: KeyCode, app: AppState, service: bool): Reaction {
    match s
    case Home(_, _) => HomeKey(s, key, service)
    case Scanning => React(s, if key == Backspace || Leaves(key) then Back else Stay)
    case DeviceList(_, _) => DeviceListKey(s, key, app)
    case Connected(_) => ConnectedKey(s, key, app)
    case PairingInput(_, _) => PairingKey(f, s, key, app)
  }

  function Navigate(t: Tui, signal: NavSignal): Tui {
    match signal
    case Back =>
      if t.stack == [] then t.(exit := true)
      else t.(current := Last(t.stack), stack := DropLast(t.stack))
    case Goto(screen) => t.(current := screen, stack := t.stack + [t.current])
    case Stay => t
  }

  function ReactionTo(f: Functions, t: Tui, key: KeyCode): Reaction {
    ScreenKey(f, t.current, key, t.appWatch.value, t.serviceWatch.value)
  }

  /** The current screen has reacted, and the command, if the channel has room, is sent. */
  function Typed(t: Tui, r: Reaction, room: bool): Tui {
    t.(current := r.screen, sent := t.sent + if r.command.Some? && room then [r.command.value] else [])
  }

  /** A key press; `room` says whether the command channel takes a command now. */
  function PressKey(f: Functions, t: Tui, key: KeyCode, room: bool): Tui {
    Navigate(Typed(t, ReactionTo(f, t, key), room), ReactionTo(f, t, key).signal)
  }

  // ---- State changes ------------------------------------------------------

  function FindDevices(t: Tui): Tui {
    if t.current.Scanning? && t.appState.devices != [] then t.(current := NEW_DEVICE_LIST) else t
  }

  function FindConnection(t: Tui): Tui {
    if (t.current.Scanning? || t.current.DeviceList?) && t.appState.connectedDevice.Some?
    then t.(current := NEW_CONNECTED) else t
  }

  function AskForPairing(t: Tui): Tui {
    if t.current.Connected? && AuthOf(t.appState) == Some(AuthenticationFailed)
    then t.(current := NEW_PAIRING, stack := t.stack + [t.current]) else t
  }

  /** The three automatic transitions, in order. */
  function AutoTransition(t: Tui): Tui { AskForPairing(FindConnection(FindDevices(t))) }

  /** Losing the service leads back to a new home screen. */
  function SyncService(t: Tui): Tui {
    if !t.serviceWatch.HasChanged() then t
    else
      var lost := !t.serviceWatch.value && t.serviceAvailable;
      t.(current := if lost then NEW_HOME else t.current,
         stack := if lost then [] else t.stack,
         serviceAvailable := t.serviceWatch.value,
         serviceWatch := t.serviceWatch.Seen())
  }

  function Sync(t: Tui): Tui {
    var u := SyncService(t);
    if !u.appWatch.HasChanged() then u
    else AutoTransition(u.(appState := u.appWatch.value, appWatch := u.appWatch.Seen()))
  }

  /** Drawing may move the selection of a list. */
  function Redraw(s: Screen, selected: Option<nat>): Screen {
    match s
    case Home(_, status) => Home(selected, status)
    case DeviceList(_, connectingTo) => DeviceList(selected, connectingTo)
    case Connected(_) => Screen.Connected(selected)
    case _ => s
  }

  datatype Step =
    | Synchronise
    | Draw(selected: Option<nat>)
    | Press(key: KeyCode, room: bool)
    | AppChanges(app: AppState)
    | ServiceChanges(available: bool)
    | BridgeEnds

  function Next(f: Functions, t: Tui, step: Step): Tui {
    match step
    case Synchronise => if t.exit then t else Sync(t)
    case Draw(selected) => if t.exit then t else t.(current := Redraw(t.current, selected))
    case Press(key, room) => if t.exit then t else PressKey(f, t, key, room)
    case AppChanges(app) => if t.appWatch.closed then t else t.(appWatch := Watch(app, true, false))
    case ServiceChanges(b) => if t.serviceWatch.closed then t else t.(serviceWatch := Watch(b, true, false))
    case BridgeEnds => t.(appWatch := t.appWatch.(closed := true), serviceWatch := t.serviceWatch.(closed := true))
  }

  function Run(f: Functions, t: Tui, steps: seq<Step>): Tui
    decreases |steps|
  {
    if steps == [] then t else Run(f, Next(f, t, steps[0]), steps[1..])
  }

  /** A rescan is a key that leads from a device list back to scanning. */
  predicate IsRescan(f: Functions, t: Tui, step: Step) {
    step.Press? && !t.exit && t.current.DeviceList?
    && ReactionTo(f, t, step.key).signal.Goto?
  }

  function Rescans(f: Functions, t: Tui, steps: seq<Step>): nat
    decreases |steps|
  {
    if steps == [] then 0
    else (if IsRescan(f, t, steps[0]) then 1 else 0) + Rescans(f, Next(f, t, steps[0]), steps[1..])
  }

  // ---- The language of stacks ---------------------------------------------

  predicate IsTail(tail: seq<Screen>) {
    || tail == []
    || (|tail| == 1 && (tail[0].Scanning? || tail[0].Connected?))
    || (|tail| == 2 && tail[0].Connected? && tail[1].PairingInput?)
  }

  /** Home, then `lists` device lists, then nothing, Scanning, Connected, or Connected and PairingInput. */
  predicate IsPath(path: seq<Screen>, lists: nat) {
    && 1 + lists <= |path|
    && path[0].Home?
    && (forall i :: 1 <= i <= lists ==> path[i].DeviceList?)
    && IsTail(path[1 + lists..])
  }

  function Path(t: Tui): seq<Screen> { t.stack + [t.current] }

  /** The number of device lists is bounded by the rescans, one more if a list is the current screen. */
  ghost predicate Inv(t: Tui, lists: nat, rescans: nat) {
    && IsPath(Path(t), lists)
    && lists <= rescans + (if |t.stack| == lists then 1 else 0)
    && (t.exit ==> t.stack == [] && t.current.Home?)
  }

  lemma PathParts(t: Tui, lists: nat)
    requires IsPath(Path(t), lists)
    ensures t.current.Home? <==> t.stack == []
    ensures t.current.Home? ==> lists == 0
    ensures t.current.DeviceList? <==> lists > 0 && |t.stack| == lists
    ensures t.current.Scanning? || t.current.Connected? ==> |t.stack| == 1 + lists
    ensures t.current.PairingInput? ==> |t.stack| == 2 + lists && t.stack[1 + lists].Connected?
    ensures forall i :: 1 <= i <= lists && i < |t.stack| ==> t.stack[i].DeviceList?
    ensures t.stack != [] ==> t.stack[0].Home?
  {
    var path := Path(t);
    var tail := path[1 + lists..];
    assert Last(path) == t.current;
    assert forall i :: 0 <= i < |t.stack| ==> path[i] == t.stack[i];
    assert forall i :: 0 <= i < |tail| ==> tail[i] == path[1 + lists + i];
    assert |path| == 1 + lists + |tail|;
  }

  /** Replacing the current screen by one of the same kind. */
  lemma SameKind(t: Tui, u: Tui, lists: nat)
    requires IsPath(Path(t), lists)
    requires u.stack == t.stack
    requires t.current.Home? ==> u.current.Home?
    requires t.current.DeviceList? ==> u.current.DeviceList?
    requires t.current.Scanning? ==> u.current.Scanning? || u.current.Connected?
    requires t.current.Connected? ==> u.current.Connected?
    requires t.current.PairingInput? ==> u.current.PairingInput?
    ensures IsPath(Path(u), lists)
  {
    var path, path' := Path(t), Path(u);
    PathParts(t, lists);
    assert forall i :: 0 <= i < |t.stack| ==> path[i] == path'[i];
    var tail, tail' := path[1 + lists..], path'[1 + lists..];
    assert forall i :: 0 <= i < |tail| ==> tail[i] == path[1 + lists + i] && tail'[i] == path'[1 + lists + i];
  }

  lemma BackKeepsPath(t: Tui, lists: nat)
    requires IsPath(Path(t), lists) && t.stack != []
    ensures var lists' := if t.current.DeviceList? then lists - 1 else lists;
            lists' >= 0 && IsPath(t.stack, lists')
  {
    PathParts(t, lists);
    var lists' := if t.current.DeviceList? then lists - 1 else lists;
    var path, tail, tail' := Path(t), Path(t)[1 + lists..], t.stack[1 + lists'..];
    assert forall i :: 0 <= i < |t.stack| ==> path[i] == t.stack[i];
    assert forall i :: 0 <= i < |tail'| ==> tail'[i] == t.stack[1 + lists' + i];
  }

  lemma PushKeepsPath(path: seq<Screen>, lists: nat, s: Screen)
    requires IsPath(path, lists)
    requires |path| == 1 + lists ==> s.Scanning? || s.Connected?
    requires |path| > 1 + lists ==> |path| == 2 + lists && path[1 + lists].Connected? && s.PairingInput?
    ensures IsPath(path + [s], lists)
  {
    var tail := path[1 + lists..];
    assert (path + [s])[1 + lists..] == tail + [s];
    assert forall i :: 0 <= i < |tail| ==> tail[i] == path[1 + lists + i];
  }

  lemma ReplaceByList(t: Tui, u: Tui, lists: nat)
    requires IsPath(Path(t), lists) && t.current.Scanning?
    requires u.stack == t.stack && u.current.DeviceList?
    ensures IsPath(Path(u), lists + 1)
  {
    PathParts(t, lists);
    var path, path' := Path(t), Path(u);
    assert forall i :: 0 <= i < |t.stack| ==> path[i] == path'[i];
    assert path'[2 + lists..] == [];
  }

  lemma ReplaceListByConnected(t: Tui, u: Tui, lists: nat)
    requires IsPath(Path(t), lists) && t.current.DeviceList?
    requires u.stack == t.stack && u.current.Connected?
    ensures lists > 0 && IsPath(Path(u), lists - 1)
  {
    PathParts(t, lists);
    var path, path' := Path(t), Path(u);
    assert forall i :: 0 <= i < |t.stack| ==> path[i] == path'[i];
    assert path'[lists..] == [u.current];
  }

  lemma NavigateKeepsInv(t: Tui, signal: NavSignal, lists: nat, rescans: nat) returns (lists': nat)
    requires Inv(t, lists, rescans) && !t.exit
    requires signal.Goto? ==>
      || (signal.screen.Scanning? && (t.current.Home? || t.current.DeviceList?))
      || (signal.screen.PairingInput? && t.current.Connected?)
    ensures Inv(Navigate(t, signal), lists', rescans + if signal.Goto? && t.current.DeviceList? then 1 else 0)
  {
    PathParts(t, lists);
    var u := Navigate(t, signal);
    match signal
    case Stay => lists' := lists;
    case Back =>
      if t.stack == [] {
        lists' := lists;
      } else {
        BackKeepsPath(t, lists);
        assert Path(u) == t.stack;
        lists' := if t.current.DeviceList? then lists - 1 else lists;
      }
    case Goto(screen) =>
      assert Path(u) == Path(t) + [screen];
      assert t.current.Connected? ==> Path(t)[1 + lists] == t.current;
      PushKeepsPath(Path(t), lists, screen);
      lists' := lists;
  }

  lemma KeyKeepsInv(f: Functions, t: Tui, key: KeyCode, room: bool, lists: nat, rescans: nat) returns (lists': nat)
    requires Inv(t, lists, rescans) && !t.exit
    ensures Inv(PressKey(f, t, key, room), lists',
                rescans + if IsRescan(f, t, Press(key, room)) then 1 else 0)
  {
    var r := ReactionTo(f, t, key);
    var u := Typed(t, r, room);
    ReactionKinds(f, t.current, key, t.appWatch.value, t.serviceWatch.value);
    SameKind(t, u, lists);
    lists' := NavigateKeepsInv(u, r.signal, lists, rescans);
  }

  /** A key keeps the kind of its screen, and leads on only to scanning or to pairing. */
  lemma ReactionKinds(f: Functions, s: Screen, key: KeyCode, app: AppState, service: bool)
    ensures var r := ScreenKey(f, s, key, app, service);
            && (s.Home? <==> r.screen.Home?) && (s.Scanning? <==> r.screen.Scanning?)
            && (s.DeviceList? <==> r.screen.DeviceList?) && (s.Connected? <==> r.screen.Connected?)
            && (s.PairingInput? <==> r.screen.PairingInput?)
            && (r.signal.Goto? ==>
                  || (r.signal.screen == Scanning && r.command == Some(ScanForDevices) && (s.Home? || s.DeviceList?))
                  || (r.signal.screen == NEW_PAIRING && s.Connected?))
  {
  }

  lemma AutoKeepsInv(t: Tui, lists: nat, rescans: nat) returns (lists': nat)
    requires Inv(t, lists, rescans) && !t.exit
    ensures Inv(AutoTransition(t), lists', rescans)
  {
    lists' := lists;
    var u := FindDevices(t);
    PathParts(t, lists);
    if t.current.Scanning? && t.appState.devices != [] {
      ReplaceByList(t, u, lists);
      lists' := lists + 1;
    }
    var v := FindConnection(u);
    PathParts(u, lists');
    if u.appState.connectedDevice.Some? {
      if u.current.Scanning? {
        SameKind(u, v, lists');
      } else if u.current.DeviceList? {
        ReplaceListByConnected(u, v, lists');
        lists' := lists' - 1;
      }
    }
    PathParts(v, lists');
    var w := AskForPairing(v);
    if v.current.Connected? && AuthOf(v.appState) == Some(AuthenticationFailed) {
      assert Path(w) == Path(v) + [NEW_PAIRING];
      assert Path(v)[1 + lists'] == v.current;
      PushKeepsPath(Path(v), lists', NEW_PAIRING);
    }
  }

  lemma SyncKeepsInv(t: Tui, lists: nat, rescans: nat) returns (lists': nat)
    requires Inv(t, lists, rescans) && !t.exit
    ensures Inv(Sync(t), lists', rescans)
  {
    var u := SyncService(t);
    lists' := lists;
    if u.stack == [] && u.current == NEW_HOME {
      assert Path(u)[1..] == [];
      lists' := 0;
    } else {
      assert Path(u) == Path(t);
    }
    if u.appWatch.HasChanged() {
      var v := u.(appState := u.appWatch.value, appWatch := u.appWatch.Seen());
      assert Path(v) == Path(u);
      lists' := AutoKeepsInv(v, lists', rescans);
    }
  }

  lemma StepKeepsInv(f: Functions, t: Tui, step: Step, lists: nat, rescans: nat) returns (lists': nat)
    requires Inv(t, lists, rescans)
    ensures Inv(Next(f, t, step), lists', rescans + if IsRescan(f, t, step) then 1 else 0)
  {
    lists' := lists;
    var u := Next(f, t, step);
    match step
    case Synchronise => if !t.exit { lists' := SyncKeepsInv(t, lists, rescans); }
    case Draw(selected) => SameKind(t, u, lists);
    case Press(key, room) => if !t.exit { lists' := KeyKeepsInv(f, t, key, room, lists, rescans); }
    case AppChanges(_) => assert Path(u) == Path(t);
    case ServiceChanges(_) => assert Path(u) == Path(t);
    case BridgeEnds => assert Path(u) == Path(t);
  }

  lemma {:induction false} RunKeepsInv(f: Functions, t: Tui, steps: seq<Step>, lists: nat, rescans: nat)
    returns (lists': nat)
    requires Inv(t, lists, rescans)
    ensures Inv(Run(f, t, steps), lists', rescans + Rescans(f, t, steps))
    decreases |steps|
  {
    lists' := lists;
    if steps != [] {
      lists' := StepKeepsInv(f, t, steps[0], lists, rescans);
      var now := if IsRescan(f, t, steps[0]) then 1 else 0;
      lists' := RunKeepsInv(f, Next(f, t, steps[0]), steps[1..], lists', rescans + now);
    }
  }

  /** Whatever keys are pressed and whatever the service does, the screens form a path of the language; its
      depth is at most two more than the number of rescans, and the client exits only from home. */
  lemma PathsAreRegular(f: Functions, app: Watch<AppState>, service: Watch<bool>, steps: seq<Step>)
    returns (lists: nat)
    ensures var t := Run(f, Start(app, service), steps);
            && IsPath(Path(t), lists)
            && |t.stack| <= 2 + Rescans(f, Start(app, service), steps)
            && (t.exit ==> t.stack == [] && t.current.Home?)
  {
    var t0 := Start(app, service);
    assert Path(t0) == [NEW_HOME] && Path(t0)[1..] == [];
    lists := RunKeepsInv(f, t0, steps, 0, 0);
    PathParts(Run(f, t0, steps), lists);
  }

  // ---- Automatic transitions settle ---------------------------------------

  /** No automatic transition applies. */
  predicate Settled(t: Tui) {
    match t.current
    case Scanning => t.appState.devices == [] && t.appState.connectedDevice.None?
    case DeviceList(_, _) => t.appState.connectedDevice.None?
    case Connected(_) => AuthOf(t.appState) != Some(AuthenticationFailed)
    case _ => true
  }

  /** One pass is enough: afterwards no transition applies, and a pass changes nothing exactly when none did. */
  lemma AutoTransitionSettles(t: Tui)
    ensures Settled(AutoTransition(t))
    ensures AutoTransition(AutoTransition(t)) == AutoTransition(t)
    ensures AutoTransition(t) == t <==> Settled(t)
  {
    if !Settled(t) {
      assert AutoTransition(t).current != t.current || |AutoTransition(t).stack| > |t.stack|;
    }
  }

  // ---- Backspace always leads out -----------------------------------------

  /** The Backspace presses left before the client quits. */
  function BackDistance(t: Tui): nat {
    |t.stack| + (if t.current.PairingInput? then |t.current.input| else 0) + 1
  }

  lemma BackspaceDecreases(f: Functions, t: Tui, room: bool, lists: nat, rescans: nat)
    requires Inv(t, lists, rescans) && !t.exit
    ensures var u := PressKey(f, t, Backspace, room);
            if BackDistance(t) == 1 then u.exit else !u.exit && BackDistance(u) == BackDistance(t) - 1
  {
    PathParts(t, lists);
    if t.stack != [] {
      BackKeepsPath(t, lists);
      assert !Last(t.stack).PairingInput? by {
        var i := |t.stack| - 1;
        assert t.stack[i] == Last(t.stack);
        if i > lists { assert t.stack[1 + lists].Connected?; }
      }
    }
  }

  /** Rounds of the main loop, each with a Backspace press. */
  function Backspaces(n: nat): seq<Step> {
    if n == 0 then [] else [Synchronise, Press(Backspace, true)] + Backspaces(n - 1)
  }

  predicate Quiet(t: Tui) { !t.appWatch.HasChanged() && !t.serviceWatch.HasChanged() }

  /** From every reachable state, while the service is quiet, exactly `BackDistance` presses quit. */
  lemma {:induction false} BackspacesQuit(f: Functions, t: Tui, n: nat, lists: nat, rescans: nat)
    requires Inv(t, lists, rescans) && !t.exit && Quiet(t)
    ensures Run(f, t, Backspaces(n)).exit <==> n >= BackDistance(t)
    decreases n
  {
    if n > 0 {
      var steps, u := Backspaces(n), PressKey(f, t, Backspace, true);
      assert steps[0] == Synchronise && steps[1] == Press(Backspace, true) && steps[1..][1..] == Backspaces(n - 1);
      assert Run(f, t, steps) == Run(f, t, steps[1..]) == Run(f, u, Backspaces(n - 1));
      BackspaceDecreases(f, t, true, lists, rescans);
      var lists' := KeyKeepsInv(f, t, Backspace, true, lists, rescans);
      if u.exit {
        ExitIsFinal(f, u, Backspaces(n - 1));
      } else {
        BackspacesQuit(f, u, n - 1, lists', rescans);
      }
    }
  }

  lemma {:induction false} ExitIsFinal(f: Functions, t: Tui, steps: seq<Step>)
    requires t.exit
    ensures Run(f, t, steps).exit
    decreases |steps|
  {
    if steps != [] {
      ExitIsFinal(f, Next(f, t, steps[0]), steps[1..]);
    }
  }

  // ---- Commands -----------------------------------------------------------

  /** A pairing command carries a key the service will decode to thirty-three bytes. */
  predicate IsSound(f: Functions, cmd: AppCommand) {
    cmd.PairDevice? ==> f.decode64(cmd.pubKey).Some? && |f.decode64(cmd.pubKey).value| == COMPRESSED_KEY_SIZE
  }

  lemma KeySendsSound(f: Functions, t: Tui, key: KeyCode, room: bool)
    requires forall cmd :: cmd in t.sent ==> IsSound(f, cmd)
    ensures forall cmd :: cmd in PressKey(f, t, key, room).sent ==> IsSound(f, cmd)
  {
    var r := ReactionTo(f, t, key);
    assert r.command.Some? ==> IsSound(f, r.command.value);
  }

  lemma {:induction false} CommandsAreSound(f: Functions, t: Tui, steps: seq<Step>)
    requires forall cmd :: cmd in t.sent ==> IsSound(f, cmd)
    ensures forall cmd :: cmd in Run(f, t, steps).sent ==> IsSound(f, cmd)
    decreases |steps|
  {
    if steps != [] {
      if steps[0].Press? && !t.exit {
        KeySendsSound(f, t, steps[0].key, steps[0].room);
      }
      CommandsAreSound(f, Next(f, t, steps[0]), steps[1..]);
    }
  }

  // ---- Menus --------------------------------------------------------------

  datatype Item =
    | ScanItem | ShutDownItem | QuitItem | StartItem | PairItem | DisconnectItem
    | DeviceItem(device: Device)

  /** The items drawn on the home screen. */
  function HomeMenu(service: bool): seq<Item> {
    if service then [ScanItem, ShutDownItem, QuitItem] else [StartItem, QuitItem]
  }

  /** The items drawn on the connected screen, which stays empty while no device is recorded as connected. */
  function ConnectedMenu(app: AppState): seq<Item> {
    if app.connectedDevice.None? then []
    else (if IsAuthenticated(app) then [] else [PairItem]) + [DisconnectItem]
  }

  /** The devices found; nothing can be chosen while a connection is being made. */
  function DeviceMenu(s: Screen, app: AppState): seq<Item>
    requires s.DeviceList?
  {
    if s.connectingTo.Some? then []
    else seq(|app.devices|, i requires 0 <= i < |app.devices| => DeviceItem(app.devices[i]))
  }

  predicate HasMenu(s: Screen) { s.Home? || s.Connected? || s.DeviceList? }

  /** The items of a screen drawn in this state of the application and of the service. */
  function Menu(s: Screen, app: AppState, service: bool): seq<Item>
    requires HasMenu(s)
  {
    match s
    case Home(_, _) => HomeMenu(service)
    case Connected(_) => ConnectedMenu(app)
    case DeviceList(_, _) => DeviceMenu(s, app)
  }

  /** What choosing an item is meant to do. */
  ghost predicate Performs(item: Item, r: Reaction) {
    match item
    case ScanItem => r.signal == Goto(Scanning) && r.command == Some(ScanForDevices)
    case ShutDownItem => r.signal.Stay? && r.command == Some(KillService)
    case QuitItem => r.signal.Back? && r.command.None?
    case StartItem =>
      r.signal.Stay? && r.command.None? && r.screen.Home? && r.screen.status == "Starting service..."
    case PairItem => r.signal == Goto(NEW_PAIRING) && r.command.None?
    case DisconnectItem => r.signal.Back? && r.command == Some(DisconnectDevice)
    case DeviceItem(d) =>
      && r.signal.Stay? && r.command == Some(ConnectToDevice(d))
      && r.screen.DeviceList? && r.screen.connectingTo == Some(d.name)
  }

  /** What a screen shows: the state it was drawn in, which may have changed before a key is pressed. */
  datatype Drawn = Drawn(app: AppState, service: bool)

  /** Enter does what the screen shows: it performs the highlighted item, and nothing when none is highlighted. */
  ghost predicate EnterIsAsDrawn(f: Functions, s: Screen, drawn: Drawn, app: AppState, service: bool)
    requires HasMenu(s)
  {
    var menu := Menu(s, drawn.app, drawn.service);
    var r := ScreenKey(f, s, Enter, app, service);
    if s.selected.Some? && s.selected.value < |menu| then Performs(menu[s.selected.value], r)
    else r == React(s, Stay)
  }

  function DeviceAt(app: AppState, i: nat): Option<Device> {
    if i < |app.devices| then Some(app.devices[i]) else None
  }

  /** Nothing that matters to the selected line has changed since the screen was drawn. */
  predicate StillAsDrawn(s: Screen, drawn: Drawn, app: AppState, service: bool)
    requires HasMenu(s)
  {
    match s
    case Home(selected, _) =>
      drawn.service == service || (selected != Some(0) && selected != Some(1) && selected != Some(2))
    case Connected(selected) =>
      || (selected != Some(0) && selected != Some(1))
      || (drawn.app.connectedDevice.Some? && IsAuthenticated(drawn.app) == IsAuthenticated(app))
      || (drawn.app.connectedDevice.None? && IsAuthenticated(app) && selected == Some(1))
    case DeviceList(selected, connectingTo) =>
      || connectingTo.Some? || selected.None?
      || DeviceAt(drawn.app, selected.value) == DeviceAt(app, selected.value)
  }

  lemma EnterOnHome(f: Functions, s: Screen, drawn: Drawn, app: AppState, service: bool)
    requires s.Home?
    ensures EnterIsAsDrawn(f, s, drawn, app, service) <==> StillAsDrawn(s, drawn, app, service)
  {
  }

  lemma EnterOnConnected(f: Functions, s: Screen, drawn: Drawn, app: AppState, service: bool)
    requires s.Connected?
    ensures EnterIsAsDrawn(f, s, drawn, app, service) <==> StillAsDrawn(s, drawn, app, service)
  {
  }

  lemma EnterOnList(f: Functions, s: Screen, drawn: Drawn, app: AppState, service: bool)
    requires s.DeviceList?
    ensures EnterIsAsDrawn(f, s, drawn, app, service) <==> StillAsDrawn(s, drawn, app, service)
  {
  }

  predicate IsReport(step: Step) { step.AppChanges? || step.ServiceChanges? || step.BridgeEnds? }

  lemma {:induction false} ReportsKeepScreen(f: Functions, t: Tui, reports: seq<Step>)
    requires forall step :: step in reports ==> IsReport(step)
    ensures var u := Run(f, t, reports);
            u.current == t.current && u.stack == t.stack && u.sent == t.sent && u.exit == t.exit
    decreases |reports|
  {
    if reports != [] {
      assert reports[0] in reports && forall step :: step in reports[1..] ==> step in reports;
      ReportsKeepScreen(f, Next(f, t, reports[0]), reports[1..]);
    }
  }

  /** The client draws, the service reports whatever it likes, and the user presses Enter on what is still shown: the
      key does what the screen shows exactly if the service is as it was drawn, or the device is recorded
      and authenticated or not as it was drawn, or the list holds the device that was drawn there, or the
      selected line means nothing then and now. */
  lemma EnterPerformsHighlighted(f: Functions, t: Tui, selected: Option<nat>, reports: seq<Step>)
    requires !t.exit && HasMenu(t.current)
    requires forall step :: step in reports ==> IsReport(step)
    ensures var drawn := Drawn(t.appWatch.value, t.serviceWatch.value);
            var shown := Next(f, t, Draw(selected)).current;
            var now := Run(f, Next(f, t, Draw(selected)), reports);
            && HasMenu(shown) && now.current == shown && !now.exit
            && (EnterIsAsDrawn(f, shown, drawn, now.appWatch.value, now.serviceWatch.value)
                <==> StillAsDrawn(shown, drawn, now.appWatch.value, now.serviceWatch.value))
  {
    var u := Next(f, t, Draw(selected));
    ReportsKeepScreen(f, u, reports);
    var drawn := Drawn(t.appWatch.value, t.serviceWatch.value);
    var now := Run(f, u, reports);
    var app, service := now.appWatch.value, now.serviceWatch.value;
    match u.current
    case Home(_, _) => EnterOnHome(f, u.current, drawn, app, service);
    case Connected(_) => EnterOnConnected(f, u.current, drawn, app, service);
    case DeviceList(_, _) => EnterOnList(f, u.current, drawn, app, service);
  }

  // ---- What goes wrong otherwise ------------------------------------------

  lemma DrawReportPress(f: Functions, t: Tui, selected: Option<nat>, report: Step, room: bool)
    requires !t.exit && IsReport(report)
    ensures Run(f, t, [Draw(selected), report, Press(Enter, room)])
         == PressKey(f, Next(f, Next(f, t, Draw(selected)), report), Enter, room)
  {
    var steps := [Draw(selected), report, Press(Enter, room)];
    var u := Next(f, t, Draw(selected));
    var v := Next(f, u, report);
    assert steps[1..] == [report, Press(Enter, room)] && steps[1..][1..] == [Press(Enter, room)];
    assert [Press(Enter, room)][1..] == [];
    assert Run(f, t, steps) == Run(f, u, steps[1..]) == Run(f, v, [Press(Enter, room)]);
    assert Run(f, v, [Press(Enter, room)]) == Next(f, v, Press(Enter, room));
    assert !u.exit && !v.exit;
  }

  /** Pairing is highlighted, the device authenticates, and Enter disconnects it. */
  lemma PairItemDisconnects(f: Functions, t: Tui, app: AppState)
    requires t.current == NEW_CONNECTED && t.stack != [] && !t.exit && !t.appWatch.closed
    requires t.appWatch.value.connectedDevice.Some? && !IsAuthenticated(t.appWatch.value) && IsAuthenticated(app)
    ensures Menu(t.current, t.appWatch.value, t.serviceWatch.value)[0] == PairItem
    ensures var end := Run(f, t, [Draw(Some(0)), AppChanges(app), Press(Enter, true)]);
            end.sent == t.sent + [DisconnectDevice] && end.current == Last(t.stack)
  {
    DrawReportPress(f, t, Some(0), AppChanges(app), true);
  }

  /** Shutting the service down is highlighted, the service goes away, and Enter quits the client instead. */
  lemma ShutDownItemQuits(f: Functions, t: Tui)
    requires t.current.Home? && t.stack == [] && !t.exit && t.serviceWatch.value && !t.serviceWatch.closed
    ensures Menu(t.current, t.appWatch.value, true)[1] == ShutDownItem
    ensures var end := Run(f, t, [Draw(Some(1)), ServiceChanges(false), Press(Enter, true)]);
            end.exit && end.sent == t.sent
  {
    DrawReportPress(f, t, Some(1), ServiceChanges(false), true);
  }

  /** A device is highlighted, a new scan puts another one in its place, and Enter connects to that one. */
  lemma AnotherDeviceIsConnected(f: Functions, t: Tui, app: AppState)
    requires t.current == NEW_DEVICE_LIST && !t.exit && !t.appWatch.closed
    requires t.appWatch.value.devices != [] && app.devices != [] && app.devices[0] != t.appWatch.value.devices[0]
    ensures Menu(t.current, t.appWatch.value, t.serviceWatch.value)[0] == DeviceItem(t.appWatch.value.devices[0])
    ensures var end := Run(f, t, [Draw(Some(0)), AppChanges(app), Press(Enter, true)]);
            end.sent == t.sent + [ConnectToDevice(app.devices[0])]
  {
    DrawReportPress(f, t, Some(0), AppChanges(app), true);
  }

  /** The client comes to show the connected screen, and then the record of the device is overwritten: Enter opens
      the pairing screen although nothing is drawn. */
  lemma EmptyScreenOpensPairing(f: Functions, t: Tui, app: AppState, gone: AppState, room: bool)
    requires t.current.Scanning? && !t.exit && !t.appWatch.closed && !t.serviceWatch.HasChanged()
    requires app.connectedDevice.Some? && AuthOf(app) != Some(AuthenticationFailed) && gone.connectedDevice.None?
    ensures var shown := Run(f, t, [AppChanges(app), Synchronise, AppChanges(gone), Synchronise]);
            && shown.current == NEW_CONNECTED && ConnectedMenu(shown.appWatch.value) == []
            && PressKey(f, shown, Enter, room).current == NEW_PAIRING
  {
    var steps := [AppChanges(app), Synchronise, AppChanges(gone), Synchronise];
    var t1 := Next(f, t, steps[0]);
    var t2 := Next(f, t1, steps[1]);
    var t3 := Next(f, t2, steps[2]);
    assert steps[1..] == [Synchronise, AppChanges(gone), Synchronise];
    assert steps[1..][1..] == [AppChanges(gone), Synchronise];
    assert steps[1..][1..][1..] == [Synchronise] && [Synchronise][1..] == [];
    assert Run(f, t, steps) == Run(f, t2, steps[1..][1..]) == Run(f, t3, [Synchronise]) == Next(f, t3, Synchronise);
  }
}
