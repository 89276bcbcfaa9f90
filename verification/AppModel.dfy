/** The state shared between the service and its clients, the commands they send, and the raw
    input events. */
module AppModel {
  import opened Basics
  import opened HidMap
  import opened Motion

  datatype AuthState =
    | NotAuthenticated
    | AuthenticationFailed
    | Authenticated(pubkey: string, sessionKey: string)

  datatype DeviceState =
    | Connected(authState: AuthState, firmwareVersion: string)
    | Disconnected

  datatype Device = Device(name: string, address: string, id: string, state: DeviceState, signalStrength: int)

  datatype AppState = AppState(
    appVersion: string,
    appString: string,
    devices: seq<Device>,
    autoConnect: Option<Device>,
    connectedDevice: Option<Device>,
    passwordProtected: bool,
    settingsFilePath: Option<string>,
    enableKeyCapture: bool,
    enableClipboardCapture: bool,
    enableMouseCapture: bool)

  datatype AppCommand =
    | ScanForDevices
    | ConnectToDevice(device: Device)
    | DisconnectDevice
    | PairDevice(device: Device, pubKey: string)
    | SendKeyboardInput(text: string)
    | SendMouseJiggle(enable: bool)
    | UpdateSettings(autoConnect: Option<Device>, passwordProtected: bool, settingsFilePath: Option<string>)
    | KillService

  datatype Button = Left | Right | OtherButton

  datatype EventType =
    | KeyPress(key: Key)
    | KeyRelease(key: Key)
    | ButtonPress(button: Button)
    | ButtonRelease(button: Button)
    | MouseMove(pos: Vec)
    | Wheel(deltaX: int, deltaY: int)

  /** An input event; `name` is the text the operating system gives to a key, if any. */
  datatype Event = Event(time: int, name: Option<string>, eventType: EventType)

  datatype InputEvent =
    | RDevEvent(event: Event)
    | Clipboard(text: string)
    | Keycode(codes: Bytes)
    | ConsumerControl(code: nat)

  /** The watch cell that holds the shared application state. */
  class StateCell {
    var value: AppState

    constructor (initial: AppState)
      ensures value == initial
    {
      value := initial;
    }
  }
}
