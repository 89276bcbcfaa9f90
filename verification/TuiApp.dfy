/** The terminal client as it is written: one object per screen, and one that owns the current screen and the stack. */
module TuiApp {
  import opened Basics
  import opened AppModel
  import opened Primitives
  import opened Navigation
  import Packets

  class WatchReceiver<T> {
    var value: T
    var unseen: bool
    var closed: bool

    ghost function State(): Watch<T>
      reads this
    {
      Watch(value, unseen, closed)
    }

    constructor (value: T)
      ensures State() == Watch(value, false, false)
    {
      this.value, unseen, closed := value, false, false;
    }

    method Send(v: T)
      requires !closed
      modifies this
      ensures State() == Watch(v, true, false)
    {
      value, unseen := v, true;
    }
  }

  class CommandSender {
    var sent: seq<AppCommand>

    constructor ()
      ensures sent == []
    {
      sent := [];
    }

    method TrySend(cmd: AppCommand, room: bool)
      modifies this
      ensures sent == old(sent) + if room then [cmd] else []
    {
      if room {
        sent := sent + [cmd];
      }
    }
  }

  // ---- Screens ------------------------------------------------------------

  datatype Signal = SBack | SGoto(screen: ScreenVariant) | SStay

  datatype ScreenVariant =
    | HomeVariant(home: HomeScreen)
    | ScanningVariant
    | ListVariant(list: DeviceListScreen)
    | ConnectedVariant(connected: ConnectedScreen)
    | PairingVariant(pairing: PairingInputScreen)

  /** The object a screen consists of. */
  ghost function Objects(v: ScreenVariant): set<object> {
    match v
    case HomeVariant(s) => {s}
    case ScanningVariant => {}
    case ListVariant(s) => {s}
    case ConnectedVariant(s) => {s}
    case PairingVariant(s) => {s}
  }

  ghost function View(v: ScreenVariant): Screen
    reads Objects(v)
  {
    match v
    case HomeVariant(s) => s.View()
    case ScanningVariant => Scanning
    case ListVariant(s) => s.View()
    case ConnectedVariant(s) => s.View()
    case PairingVariant(s) => s.View()
  }

  ghost function SignalView(s: Signal): NavSignal
    reads if s.SGoto? then Objects(s.screen) else {}
  {
    match s
    case SBack => Back
    case SGoto(v) => Goto(View(v))
    case SStay => Stay
  }

  class HomeScreen {
    var selected: Option<nat>
    var status: string

    ghost function View(): Screen
      reads this
    {
      Home(selected, status)
    }

    constructor ()
      ensures View() == NEW_HOME
    {
      selected, status := None, "";
    }

    method HandleKey(key: KeyCode, service: bool, commands: CommandSender, room: bool) returns (signal: Signal)
      modifies this, commands
      ensures Reacted(HomeKey(old(View()), key, service), View(), signal, old(commands.sent), commands.sent, room)
      ensures signal.SGoto? ==> signal.screen.ScanningVariant?
    {
      signal := SStay;
      if key == Backspace {
        signal := SBack;
      } else if key == Enter {
        if service {
          if selected == Some(0) {
            commands.TrySend(ScanForDevices, room);
            signal := SGoto(ScanningVariant);
          } else if selected == Some(1) {
            commands.TrySend(KillService, room);
            status := "Shutting down service...";
          } else if selected == Some(2) {
            signal := SBack;
          }
        } else if selected == Some(0) {
          status := "Starting service...";
        } else if selected == Some(1) {
          signal := SBack;
        }
      } else if key == Up {
        selected := SelectPrevious(selected);
      } else if key == Down {
        selected := SelectNext(selected);
      } else if IsLetter(key, 'x', 'X') {
        if service {
          commands.TrySend(KillService, room);
          status := "Shutting down service...";
        }
      } else if Leaves(key) {
        signal := SBack;
      }
    }
  }

  class DeviceListScreen {
    var selected: Option<nat>
    var connectingTo: Option<string>

    ghost function View(): Screen
      reads this
    {
      DeviceList(selected, connectingTo)
    }

    constructor ()
      ensures View() == NEW_DEVICE_LIST
    {
      selected, connectingTo := Some(0), None;
    }

    method HandleKey(key: KeyCode, app: AppState, commands: CommandSender, room: bool) returns (signal: Signal)
      modifies this, commands
      ensures Reacted(DeviceListKey(old(View()), key, app), View(), signal, old(commands.sent), commands.sent, room)
      ensures signal.SGoto? ==> signal.screen.ScanningVariant?
    {
      if key == Backspace {
        return SBack;
      }
      if connectingTo.Some? {
        return SStay;
      }
      signal := SStay;
      if key == Enter {
        if selected.Some? && selected.value < |app.devices| {
          var device := app.devices[selected.value];
          connectingTo := Some(device.name);
          commands.TrySend(ConnectToDevice(device), room);
        }
      } else if key == Up {
        selected := SelectPrevious(selected);
      } else if key == Down {
        selected := SelectNext(selected);
      } else if IsLetter(key, 's', 'S') {
        commands.TrySend(ScanForDevices, room);
        signal := SGoto(ScanningVariant);
      } else if Leaves(key) {
        signal := SBack;
      }
    }
  }

  class ConnectedScreen {
    var selected: Option<nat>

    ghost function View(): Screen
      reads this
    {
      Screen.Connected(selected)
    }

    constructor ()
      ensures View() == NEW_CONNECTED
    {
      selected := Some(0);
    }

    method HandleKey(key: KeyCode, app: AppState, commands: CommandSender, room: bool) returns (signal: Signal)
      modifies this, commands
      ensures Reacted(ConnectedKey(old(View()), key, app), View(), signal, old(commands.sent), commands.sent, room)
      ensures signal.SGoto? ==> fresh(Objects(signal.screen))
    {
      signal := SStay;
      if key == Backspace {
        signal := SBack;
      } else if key == Enter {
        var authenticated := IsAuthenticated(app);
        if selected == Some(0) && !authenticated {
          var screen := new PairingInputScreen();
          signal := SGoto(PairingVariant(screen));
        } else if (authenticated && selected == Some(0)) || (!authenticated && selected == Some(1)) {
          commands.TrySend(DisconnectDevice, room);
          signal := SBack;
        }
      } else if key == Up {
        selected := SelectPrevious(selected);
      } else if key == Down {
        selected := SelectNext(selected);
      } else if IsLetter(key, 'd', 'D') {
        commands.TrySend(DisconnectDevice, room);
        signal := SBack;
      } else if Leaves(key) {
        signal := SBack;
      }
    }
  }

  class PairingInputScreen {
    var pairInput: string
    var status: string

    ghost function View(): Screen
      reads this
    {
      PairingInput(pairInput, status)
    }

    constructor ()
      ensures View() == NEW_PAIRING
    {
      pairInput, status := "", "Enter peer public key (base64):";
    }

    method Submit(f: Functions, app: AppState, commands: CommandSender, room: bool) returns (signal: Signal)
      modifies this, commands
      ensures Reacted(Navigation.Submit(f, old(View()), app), View(), signal,
                      old(commands.sent), commands.sent, room)
      ensures !signal.SGoto?
    {
      var trimmed := Packets.Trim(pairInput);
      var decoded := f.decode64(trimmed);
      if decoded.None? {
        status := "Invalid base64. Try again.";
        return SStay;
      }
      if |decoded.value| != COMPRESSED_KEY_SIZE {
        status := "Invalid key: expected 33 bytes (compressed P-256).";
        return SStay;
      }
      if app.connectedDevice.None? {
        return SStay;
      }
      commands.TrySend(PairDevice(app.connectedDevice.value, trimmed), room);
      pairInput := "";
      return SBack;
    }

    method HandleKey(f: Functions, key: KeyCode, app: AppState, commands: CommandSender, room: bool)
      returns (signal: Signal)
      modifies this, commands
      ensures Reacted(PairingKey(f, old(View()), key, app), View(), signal, old(commands.sent), commands.sent, room)
      ensures !signal.SGoto?
    {
      signal := SStay;
      match key
      case Backspace =>
        if pairInput == "" {
          signal := SBack;
        } else {
          pairInput := DropLast(pairInput);
        }
      case Enter => signal := Submit(f, app, commands, room);
      case Char(c) => pairInput := pairInput + [c];
      case Esc => signal := SBack;
      case _ =>
    }
  }

  /** A handler did what the reaction says. */
  ghost predicate Reacted(r: Reaction, now: Screen, signal: Signal, before: seq<AppCommand>, after: seq<AppCommand>,
                          room: bool)
    reads if signal.SGoto? then Objects(signal.screen) else {}
  {
    && now == r.screen
    && SignalView(signal) == r.signal
    && after == before + if r.command.Some? && room then [r.command.value] else []
  }

  /** Each kind of screen handles its own keys. */
  method PassKey(v: ScreenVariant, f: Functions, key: KeyCode, app: AppState, service: bool, commands: CommandSender,
                 room: bool) returns (signal: Signal)
    modifies Objects(v), commands
    ensures Reacted(ScreenKey(f, old(View(v)), key, app, service), View(v), signal,
                    old(commands.sent), commands.sent, room)
    ensures signal.SGoto? ==> fresh(Objects(signal.screen))
  {
    match v
    case HomeVariant(s) => signal := s.HandleKey(key, service, commands, room);
    case ScanningVariant => signal := if key == Backspace || Leaves(key) then SBack else SStay;
    case ListVariant(s) => signal := s.HandleKey(key, app, commands, room);
    case ConnectedVariant(s) => signal := s.HandleKey(key, app, commands, room);
    case PairingVariant(s) => signal := s.HandleKey(f, key, app, commands, room);
  }

  // ---- The client ---------------------------------------------------------

  ghost function AllObjects(vs: seq<ScreenVariant>): set<object> {
    set i, o | 0 <= i < |vs| && o in Objects(vs[i]) :: o
  }

  ghost function Views(vs: seq<ScreenVariant>): seq<Screen>
    reads AllObjects(vs)
  {
    seq(|vs|, i requires 0 <= i < |vs| reads AllObjects(vs) => View(vs[i]))
  }

  lemma ViewsPush(vs: seq<ScreenVariant>, v: ScreenVariant)
    ensures AllObjects(vs + [v]) == AllObjects(vs) + Objects(v)
    ensures Views(vs + [v]) == Views(vs) + [View(v)]
  {
    var all := vs + [v];
    assert all[|vs|] == v && forall i :: 0 <= i < |vs| ==> all[i] == vs[i];
  }

  /** No two of these screens share an object. */
  ghost predicate Apart(vs: seq<ScreenVariant>) {
    forall i, j :: 0 <= i < j < |vs| ==> Objects(vs[i]) !! Objects(vs[j])
  }

  lemma ApartPush(vs: seq<ScreenVariant>, v: ScreenVariant)
    ensures Apart(vs + [v]) <==> Apart(vs) && AllObjects(vs) !! Objects(v)
  {
    var all := vs + [v];
    assert all[|vs|] == v && forall i :: 0 <= i < |vs| ==> all[i] == vs[i];
    assert forall i :: 0 <= i < |vs| ==> Objects(vs[i]) <= AllObjects(vs);
  }

  class ToothPasteTUI {
    const f: Functions
    const appStateRx: WatchReceiver<AppState>
    const serviceAvailableRx: WatchReceiver<bool>
    const commands: CommandSender
    var currentScreen: ScreenVariant
    var screenStack: seq<ScreenVariant>
    var appState: AppState
    var serviceAvailable: bool
    var exit: bool
    // The objects of all screens there have been.
    ghost var repr: set<object>

    /** No two places hold the same screen object. */
    ghost predicate Valid()
      reads this
    {
      && Apart(screenStack) && AllObjects(screenStack) !! Objects(currentScreen)
      && AllObjects(screenStack) + Objects(currentScreen) <= repr
    }

    ghost function State(): Tui
      reads this, appStateRx, serviceAvailableRx, commands, Objects(currentScreen), AllObjects(screenStack)
    {
      Tui(View(currentScreen), Views(screenStack), appState, serviceAvailable, exit,
          appStateRx.State(), serviceAvailableRx.State(), commands.sent)
    }

    constructor (f: Functions, appStateRx: WatchReceiver<AppState>, serviceAvailableRx: WatchReceiver<bool>,
                 commands: CommandSender)
      requires commands.sent == []
      ensures Valid() && this.f == f && fresh(repr)
      ensures this.appStateRx == appStateRx && this.serviceAvailableRx == serviceAvailableRx
      ensures this.commands == commands
      ensures State() == Start(appStateRx.State(), serviceAvailableRx.State())
    {
      var home := new HomeScreen();
      this.f, this.appStateRx, this.serviceAvailableRx, this.commands := f, appStateRx, serviceAvailableRx, commands;
      currentScreen, screenStack, repr := HomeVariant(home), [], {home};
      appState, serviceAvailable, exit := appStateRx.value, serviceAvailableRx.value, false;
    }

    // ---- Keys ---------------------------------------------------------------

    /** Passes the key to the current screen; the stack is not touched, because it holds other objects. */
    method HandleScreenKey(key: KeyCode, room: bool) returns (signal: Signal)
      requires Valid()
      modifies Objects(currentScreen), commands
      ensures Valid()
      ensures var r := ReactionTo(f, old(State()), key);
              State() == Typed(old(State()), r, room) && SignalView(signal) == r.signal
      ensures signal.SGoto? ==> fresh(Objects(signal.screen))
    {
      ghost var t, before := State(), Views(screenStack);
      ghost var r := ReactionTo(f, t, key);
      signal := PassKey(currentScreen, f, key, appStateRx.value, serviceAvailableRx.value, commands, room);
      assert Views(screenStack) == before;
    }

    method ApplyNavSignal(signal: Signal)
      requires Valid()
      requires signal.SGoto? ==> Objects(signal.screen) !! AllObjects(screenStack) + Objects(currentScreen)
      modifies this`currentScreen, this`screenStack, this`exit, this`repr
      ensures Valid() && repr == old(repr) + if signal.SGoto? then Objects(signal.screen) else {}
      ensures State() == Navigate(old(State()), old(SignalView(signal)))
    {
      match signal
      case SBack =>
        if screenStack == [] {
          exit := true;
        } else {
          Pop();
        }
      case SGoto(screen) => Push(screen);
      case SStay =>
    }

    method Pop()
      requires Valid() && screenStack != []
      modifies this`currentScreen, this`screenStack
      ensures Valid()
      ensures State() == old(State()).(current := Last(old(State().stack)), stack := DropLast(old(State().stack)))
    {
      ghost var below, top := DropLast(screenStack), Last(screenStack);
      assert screenStack == below + [top];
      ViewsPush(below, top);
      ApartPush(below, top);
      currentScreen, screenStack := Last(screenStack), DropLast(screenStack);
    }

    /** The new screen becomes the current one, on top of the one so far. */
    method Push(screen: ScreenVariant)
      requires Valid() && Objects(screen) !! AllObjects(screenStack) + Objects(currentScreen)
      modifies this`currentScreen, this`screenStack, this`repr
      ensures Valid() && repr == old(repr) + Objects(screen)
      ensures State() == old(State()).(current := View(screen), stack := old(State().stack) + [old(State().current)])
    {
      ViewsPush(screenStack, currentScreen);
      ApartPush(screenStack, currentScreen);
      currentScreen, screenStack, repr := screen, screenStack + [currentScreen], repr + Objects(screen);
    }

    method HandleKeypress(key: KeyCode, room: bool)
      requires Valid() && !exit
      modifies this, Objects(currentScreen), commands
      ensures Valid() && fresh(repr - old(repr))
      ensures State() == PressKey(f, old(State()), key, room)
    {
      var signal := HandleScreenKey(key, room);
      ApplyNavSignal(signal);
    }

    /** The new screen takes the place of the current one. */
    method SetScreen(screen: ScreenVariant)
      requires Valid() && Objects(screen) !! AllObjects(screenStack)
      modifies this`currentScreen, this`repr
      ensures Valid() && repr == old(repr) + Objects(screen)
      ensures State() == old(State()).(current := View(screen))
    {
      currentScreen, repr := screen, repr + Objects(screen);
    }

    // ---- State changes ------------------------------------------------------

    method SyncAppState()
      requires Valid() && !exit
      modifies this, appStateRx`unseen, serviceAvailableRx`unseen
      ensures Valid() && fresh(repr - old(repr))
      ensures State() == Sync(old(State()))
    {
      SyncServiceAvailable();
      if appStateRx.unseen && !appStateRx.closed {
        TakeAppState();
        AutoTransitions();
      }
    }

    method TakeAppState()
      requires Valid()
      modifies this`appState, appStateRx`unseen
      ensures Valid()
      ensures State() == old(State()).(appState := appStateRx.value, appWatch := old(appStateRx.State()).Seen())
    {
      ghost var before := Views(screenStack);
      appStateRx.unseen := false;
      appState := appStateRx.value;
      assert Views(screenStack) == before;
    }

    method AutoTransitions()
      requires Valid()
      modifies this`currentScreen, this`screenStack, this`repr
      ensures Valid() && fresh(repr - old(repr))
      ensures State() == AutoTransition(old(State()))
    {
      FindDevices();
      FindConnection();
      AskForPairing();
    }

    method SyncServiceAvailable()
      requires Valid()
      modifies this, serviceAvailableRx`unseen
      ensures Valid() && fresh(repr - old(repr))
      ensures State() == SyncService(old(State()))
    {
      if serviceAvailableRx.unseen && !serviceAvailableRx.closed {
        ghost var before := Views(screenStack);
        var nowAvailable := serviceAvailableRx.value;
        serviceAvailableRx.unseen := false;
        assert Views(screenStack) == before;
        if !nowAvailable && serviceAvailable {
          BackHome();
        }
        serviceAvailable := nowAvailable;
      }
    }

    /** Only a new home screen is left. */
    method BackHome()
      requires Valid()
      modifies this`currentScreen, this`screenStack, this`repr
      ensures Valid() && fresh(repr - old(repr))
      ensures State() == old(State()).(current := NEW_HOME, stack := [])
    {
      var home := new HomeScreen();
      currentScreen, screenStack, repr := HomeVariant(home), [], repr + {home};
    }

    method FindDevices()
      requires Valid()
      modifies this`currentScreen, this`repr
      ensures Valid() && fresh(repr - old(repr))
      ensures State() == Navigation.FindDevices(old(State()))
    {
      if currentScreen.ScanningVariant? && appState.devices != [] {
        var list := new DeviceListScreen();
        SetScreen(ListVariant(list));
      }
    }

    method FindConnection()
      requires Valid()
      modifies this`currentScreen, this`repr
      ensures Valid() && fresh(repr - old(repr))
      ensures State() == Navigation.FindConnection(old(State()))
    {
      if (currentScreen.ScanningVariant? || currentScreen.ListVariant?) && appState.connectedDevice.Some? {
        var connected := new ConnectedScreen();
        SetScreen(ConnectedVariant(connected));
      }
    }

    method AskForPairing()
      requires Valid()
      modifies this`currentScreen, this`screenStack, this`repr
      ensures Valid() && fresh(repr - old(repr))
      ensures State() == Navigation.AskForPairing(old(State()))
    {
      if currentScreen.ConnectedVariant? && AuthOf(appState) == Some(AuthenticationFailed) {
        var pairing := new PairingInputScreen();
        Push(PairingVariant(pairing));
      }
    }

    // ---- The loop -----------------------------------------------------------

    /** Drawing may move the selection of the current screen's list. */
    method Draw(selected: Option<nat>)
      requires Valid()
      modifies Objects(currentScreen)
      ensures State() == old(State()).(current := Redraw(old(State().current), selected))
    {
      ghost var before := Views(screenStack);
      match currentScreen
      case HomeVariant(s) => s.selected := selected;
      case ListVariant(s) => s.selected := selected;
      case ConnectedVariant(s) => s.selected := selected;
      case _ =>
      assert Views(screenStack) == before;
    }

    /** The task that talks to the service publishes something or ends. */
    method HandleReport(step: Step)
      requires Valid() && (step.AppChanges? || step.ServiceChanges? || step.BridgeEnds?)
      modifies appStateRx, serviceAvailableRx
      ensures State() == Next(f, old(State()), step)
    {
      ghost var before := Views(screenStack);
      match step
      case AppChanges(app) => if !appStateRx.closed { appStateRx.Send(app); }
      case ServiceChanges(b) => if !serviceAvailableRx.closed { serviceAvailableRx.Send(b); }
      case BridgeEnds => appStateRx.closed, serviceAvailableRx.closed := true, true;
      assert Views(screenStack) == before;
    }

    /** A part of a round of the main loop, or something the connection to the service reports. */
    method HandleStep(step: Step)
      requires Valid()
      modifies this, repr, commands, appStateRx, serviceAvailableRx
      ensures Valid() && fresh(repr - old(repr))
      ensures State() == Next(f, old(State()), step)
    {
      match step
      case Synchronise => if !exit { SyncAppState(); }
      case Draw(selected) => if !exit { Draw(selected); }
      case Press(key, room) => if !exit { HandleKeypress(key, room); }
      case _ => HandleReport(step);
    }

    method HandleSteps(steps: seq<Step>)
      requires Valid()
      modifies this, repr, commands, appStateRx, serviceAvailableRx
      ensures Valid() && fresh(repr - old(repr))
      ensures State() == Run(f, old(State()), steps)
    {
      assert steps[0..] == steps;
      for i := 0 to |steps|
        invariant Valid() && fresh(repr - old(repr))
        invariant Run(f, State(), steps[i..]) == Run(f, old(State()), steps)
      {
        assert steps[i..][1..] == steps[i + 1..];
        HandleStep(steps[i]);
      }
    }
  }

  /** The life of the client: whatever keys are pressed and whatever the service does, its screens form a path of the
      language, it exits only from home, and every pairing command it sent carries a key that decodes. */
  method RunClient(f: Functions, appStateRx: WatchReceiver<AppState>, serviceAvailableRx: WatchReceiver<bool>,
                   commands: CommandSender, steps: seq<Step>) returns (t: ToothPasteTUI, ghost lists: nat)
    requires commands.sent == []
    modifies appStateRx, serviceAvailableRx, commands
    ensures fresh(t) && t.Valid()
    ensures t.State() == Run(f, Start(old(appStateRx.State()), old(serviceAvailableRx.State())), steps)
    ensures IsPath(Path(t.State()), lists) && (t.exit ==> t.screenStack == [] && t.currentScreen.HomeVariant?)
    ensures forall cmd :: cmd in commands.sent ==> IsSound(f, cmd)
  {
    t := new ToothPasteTUI(f, appStateRx, serviceAvailableRx, commands);
    ghost var start := t.State();
    t.HandleSteps(steps);
    lists := PathsAreRegular(f, start.appWatch, start.serviceWatch, steps);
    CommandsAreSound(f, start, steps);
    assert commands.sent == t.State().sent;
  }
}
