# A model of ToothPaste Desktop

ToothPaste Desktop forwards captured keyboard and mouse input, and clipboard text, to a BLE device that acts as a
keyboard. A service captures input, pairs with devices and sends encrypted packets; a terminal client shows its
state and sends it commands. This project models the parts with logic of their own and proves what they keep
over whole runs.

| file | models |
|---|---|
| `Motion.dfy`, `Pointer.dfy` | the mouse accumulator, its greedy segmentation, conservation, timing and rounding |
| `HidMap.dfy`, `Keyboard.dfy`, `Combo.dfy` | key tables, reports, hot keys, and the parser of key combos |
| `InputCapture.dfy`, `KeyCapture.dfy`, `HotKeys.dfy` | the input handler with its bounded queue, what it makes of the history of the keys, and its interleavings with the BLE task |
| `Packets.dfy`, `Serial.dfy` | payloads, chunking and sanitizing, and the buffer of lines from the device |
| `Primitives.dfy`, `Storage.dfy`, `Ecdh.dfy` | cryptography by its laws, the encrypted store, and device sessions |
| `BleSession.dfy`, `BleState.dfy`, `BleInterface.dfy` | the BLE task as a state machine, what it shows, and the task as an object |
| `Delivery.dfy`, `Desktop.dfy` | what the radio takes of what is sent, and the way of the mouse from the input hook to the device |
| `Navigation.dfy`, `ClientKeys.dfy`, `TuiApp.dfy` | the client's screens and stack, what every key and report does, and the client as objects |
| `Ipc.dfy`, `Handshake.dfy` | framing and state forwarding, and the pairing dialogue from end to end |

Objects that the program updates in place are classes. Each of their methods is proved equal to a specification
function on the object's abstract state, and the properties of runs are lemmas about those functions. Loops over any
steps carry the properties back to the objects: `InputCapture.PerformSteps`, `BleInterface.Serve` and
`TuiApp.RunClient`.

What comes from outside is a parameter: clock readings, random numbers, whether a queue has room, whether a write or a
radio transmission succeeds, what a failed write leaves in the file. AES-GCM, HKDF, key agreement, Base64 and
the serialisation of sessions are functions of which only laws are known; `Primitives.dfy` exhibits functions that
meet the laws, with which pairing succeeds (`Ecdh.PairingIsPossible`). Coordinates are real numbers, times are integers in nanoseconds.

Where comments and code of the program disagree, the model follows the code:

- `crypto.rs:104-105` says that generating device keys persists them; only the later save does.
- `interface.rs:67-68` calls the device authenticated once the handshake is complete; the state is set even when
  loading the keys failed, so nothing here concludes from it that a key exists.

Three results say exactly when something fails, and give cases:

- A hot key publishes a copy of the whole state, which can overwrite what the BLE task wrote in between
  (`HotKeys.HandlingKeepsWrites`, `HotKeys.ConnectionCanBeForgotten`).
- The client draws a state and then acts on the state at the key press. Enter does what the screen shows exactly if
  what decides about the selected line is still as it was drawn (`Navigation.EnterPerformsHighlighted`). Otherwise
  it may disconnect instead of pairing, quit instead of shutting the service down, connect to another device, or open
  pairing from an empty screen (`Navigation.PairItemDisconnects`, `Navigation.ShutDownItemQuits`,
  `Navigation.AnotherDeviceIsConnected`, `Navigation.EmptyScreenOpensPairing`).
- The device does not always hold the mouse buttons the user holds: a movement or another click lets go of a held
  button, a release that is refused leaves it down, and two buttons are never held. `Desktop.ButtonsAreRight` says
  exactly when the two agree, `Desktop.SmoothButtons` when they do although nothing is lost. That a mouse packet sets
  both buttons of the device is an assumption on its firmware.

## Model

| member | source | states |
|---|---|---|
| `Motion.Conservation` | crates/toothpaste-desktop-service/src/modules/input/handler.rs:240-290 | over any run the deltas fed in, plus what was pending, equal the flushed sums plus what is pending now |
| `Motion.NoCancellation` | crates/toothpaste-desktop-service/src/modules/input/handler.rs:248-270 | the same balance holds for distances without sign, so merging two deltas never hides movement |
| `Motion.SegmentationExists` | crates/toothpaste-desktop-service/src/modules/input/handler.rs:240-290 | every input can be cut into maximal runs that keep their sign on both axes and stay under the threshold |
| `Motion.SegmentationIsUnique` | crates/toothpaste-desktop-service/src/modules/input/handler.rs:240-290 | it can be cut so in one way only |
| `Motion.RefinesSegmenter` | crates/toothpaste-desktop-service/src/modules/input/handler.rs:240-290 | the accumulator's flushes are exactly the nonzero sums of those runs, in order, each with the time and the fate of the sample that closed it; the open run is what is pending |
| `Motion.DebounceRate` | crates/toothpaste-desktop-service/src/modules/input/handler.rs:264-288 | for nondecreasing times, debounce flushes times the threshold never exceed the elapsed time, and everything pending arrived less than one threshold after the last reset |
| `Motion.TurnsIsOppositeSign` | crates/toothpaste-desktop-service/src/modules/input/handler.rs:248-252 | a sample turns exactly if its product with the pending sum is negative on some axis |
| `Motion.TimedOutAfter` | crates/toothpaste-desktop-service/src/modules/input/handler.rs:264-270 | the threshold has passed exactly if that many million nanoseconds have; a clock that ran backwards never passes it |
| `Motion.TravelIsDistance` | crates/toothpaste-desktop-service/src/modules/input/handler.rs:248-270 | travel is the absolute value on each axis |
| `Pointer.MovesAreDeltas` | crates/toothpaste-desktop-service/src/modules/input/handler.rs:216-236 | handling cursor positions is running the accumulator on the differences between successive positions |
| `Pointer.PositionIsFlushedPlusPending` | crates/toothpaste-desktop-service/src/modules/input/handler.rs:216-290 | position = start + everything flushed + pending, whatever is refused or discarded |
| `Pointer.TravelIsFlushedPlusPending` | crates/toothpaste-desktop-service/src/modules/input/handler.rs:216-290 | the distance travelled on each axis is the flushed distance plus the pending one |
| `Pointer.FlushRate` | crates/toothpaste-desktop-service/src/modules/input/handler.rs:48-52 | with the handler's threshold, flushes by timeout are at least fifty milliseconds apart |
| `Pointer.DeviceFollowsCursor` | crates/toothpaste-desktop-proto/src/packets.rs:24-39 | after k queued mouse packets the device's displacement is within k/2 per axis of the cursor's, less pending and lost movement |
| `Pointer.DeviceIsExact` | crates/toothpaste-desktop-proto/src/packets.rs:24-39 | for integral positions, capture on and room in the queue, it is exact |
| `InputCapture.InputChannel.TrySend` | crates/toothpaste-desktop-service/src/main.rs:44 | a bounded queue: an event is appended if there is room and the channel is open, otherwise dropped |
| `InputCapture.SysInputHandler.HandleEvent` | crates/toothpaste-desktop-service/src/modules/input/handler.rs:120-143 | one event changes pressed keys, accumulator, shared state and queue as the specification function says, from the snapshot read at its start |
| `InputCapture.SysInputHandler.HandleKeyboardEvent` | crates/toothpaste-desktop-service/src/modules/input/handler.rs:145-191 | key presses and releases, in the order hot keys, clipboard, captured key |
| `InputCapture.SysInputHandler.HandleHotKeys` | crates/toothpaste-desktop-service/src/modules/input/handler.rs:306-382 | at most one flag of the snapshot is flipped and published |
| `InputCapture.SysInputHandler.HandleClipboardEvent` | crates/toothpaste-desktop-service/src/modules/input/handler.rs:292-304 | Ctrl+V offers the clipboard's text if clipboard capture is on |
| `InputCapture.SysInputHandler.HandleCapturedKey` | crates/toothpaste-desktop-service/src/modules/input/handler.rs:157-184 | a captured key is offered as a report, as the event itself, or not at all |
| `InputCapture.SysInputHandler.HandleMouseClick` | crates/toothpaste-desktop-service/src/modules/input/handler.rs:194-198 | clicks are offered if mouse capture is on |
| `InputCapture.SysInputHandler.HandleMouseMove` | crates/toothpaste-desktop-service/src/modules/input/handler.rs:216-236 | the new position, accumulator and queue |
| `InputCapture.SysInputHandler.ProcessAccumulatedEvent` | crates/toothpaste-desktop-service/src/modules/input/handler.rs:240-290 | the accumulator step and the flush it queues |
| `InputCapture.SysInputHandler.BuildHidReport` | crates/toothpaste-desktop-service/src/modules/input/handler.rs:82-118 | the report array filled in place is the modifiers from byte 0 on and the key in byte 5 |
| `InputCapture.QueueConserves` | crates/toothpaste-desktop-service/src/main.rs:44 | events taken, then those left, are those present, then those accepted from the handler and from the MCP server as they came; the bound of fifty is kept |
| `InputCapture.QueuedMovesAreFlushes` | crates/toothpaste-desktop-service/src/modules/input/handler.rs:216-290 | among any mix of keys, clicks, hot keys, draining, events of the MCP server and state updates, the mouse events the handler gets into the queue are the queued flushes in order |
| `InputCapture.QueuedMovesAreSegments` | crates/toothpaste-desktop-service/src/modules/input/handler.rs:216-290 | so the handler's mouse events are the nonzero sums of the unique cut of the cursor's movement that were closed with capture on and room in the queue |
| `InputCapture.PerformSteps` | crates/toothpaste-desktop-service/src/main.rs:119-125 | the handler object, fed any steps in any order, follows the specification of runs |
| `KeyCapture.PressedIsHistory` | crates/toothpaste-desktop-service/src/modules/input/handler.rs:145-191 | along every run of the handler a key is in the pressed set exactly if its last event was a press |
| `KeyCapture.PressIsOffered` | crates/toothpaste-desktop-service/src/modules/input/handler.rs:148-184 | at the end of every run, what a key press offers to the queue, byte by byte from the history of the keys and the flags, and how much of it the queue takes |
| `KeyCapture.PasteNeedsCtrlV` | crates/toothpaste-desktop-service/src/modules/input/handler.rs:292-304 | at the end of every run text is pasted exactly for V with a Ctrl key down by the history while clipboard capture is on, and before the key's own report |
| `KeyCapture.OthersAreOffered` | crates/toothpaste-desktop-service/src/modules/input/handler.rs:194-236 | clicks and flushed movements reach the queue exactly if mouse capture is on and there is room; releases of keys and the wheel never do |
| `KeyCapture.FlagsAreHistory` | crates/toothpaste-desktop-service/src/modules/input/handler.rs:306-382 | along every run of the handler each capture flag is its initial value flipped once per matching Ctrl+Alt press |
| `KeyCapture.InputKeepsTheRest` | crates/toothpaste-desktop-service/src/modules/input/handler.rs:306-382 | input changes nothing in the shared state but the capture flags |
| `Keyboard.PressedIsDown` | crates/toothpaste-desktop-service/src/modules/input/handler.rs:145-191 | a key is in the pressed set exactly when its last event was a press |
| `Keyboard.CapturedPress` | crates/toothpaste-desktop-service/src/modules/input/handler.rs:157-184 | a captured press is offered exactly when its key has a code; a report encodes precisely the modifier classes whose last event was a press |
| `Keyboard.EncodersAgree` | crates/toothpaste-desktop-service/src/modules/input/handler.rs:82-118 | for every key with a code that is no modifier, the report equals the one its text denotes to the combo parser |
| `HidMap.CodesIdentifyKeys` | crates/toothpaste-desktop-service/src/modules/input/hidmap.rs:4-112 | every code of the two tables leads back to its key, by runs of consecutive codes, so no two keys share one and printing keys have the ASCII code of their character |
| `HidMap.KeysHaveCodes` | crates/toothpaste-desktop-service/src/modules/input/hidmap.rs:4-112 | every code of these runs is that of its key |
| `Keyboard.ModifierNamesAreKeys` | crates/toothpaste-desktop-service/src/modules/mcp/mod.rs:434-441 | exactly which names stand for which modifier class |
| `Keyboard.SecondNamesAreKeys` | crates/toothpaste-desktop-service/src/modules/mcp/mod.rs:449-470 | the second names of keys stand for the same keys as the first |
| `Keyboard.OtherNamesAreRefused` | crates/toothpaste-desktop-service/src/modules/mcp/mod.rs:449-476 | a longer name is accepted only with the code of a special key or of the space bar |
| `Keyboard.DocumentedExample` | crates/toothpaste-desktop-service/src/modules/mcp/mod.rs:421-426 | the example in the documentation denotes the report it should |
| `HotKeys.FlagsCountHotKeys` | crates/toothpaste-desktop-service/src/modules/input/handler.rs:306-382 | under every interleaving with writes of the BLE task each capture flag is its initial value flipped once per matching Ctrl+Alt press |
| `HotKeys.HandlingKeepsWrites` | crates/toothpaste-desktop-service/src/modules/input/handler.rs:60-62 | from the read at the start of an event to its publish, each field ends up as the BLE task last wrote it exactly if the event is no hot key or the writes left the field as it had been |
| `HotKeys.ConnectionCanBeForgotten` | crates/toothpaste-desktop-service/src/modules/input/handler.rs:367-380 | a concrete interleaving in which a recorded connection is overwritten |
| `HotKeys.ConnectionIsLastWritten` | crates/toothpaste-desktop-service/src/modules/ble/interface.rs:143-151 | over any run without a write while a hot key is being handled the connection is always the last one the BLE task wrote |
| `Combo.SplitUndoesJoin` | crates/toothpaste-desktop-service/src/modules/mcp/mod.rs:428 | splitting at plus signs inverts joining for parts without one |
| `Combo.JoinUndoesSplit` | crates/toothpaste-desktop-service/src/modules/mcp/mod.rs:428 | joining inverts splitting on every string |
| `Combo.ParseKeyCombo` | crates/toothpaste-desktop-service/src/modules/mcp/mod.rs:427-447 | the loop returns the report the string denotes, or nothing exactly when it denotes none |
| `Combo.DenotesOnce` | crates/toothpaste-desktop-service/src/modules/mcp/mod.rs:427-447 | a string denotes at most one report |
| `Combo.JoinedNamesDenote` | crates/toothpaste-desktop-service/src/modules/mcp/mod.rs:427-476 | any list of modifier names and a key name, joined, parses to the first five codes from byte 0, the key in byte 5, zeros elsewhere |
| `Combo.AcceptedShape` | crates/toothpaste-desktop-service/src/modules/mcp/mod.rs:427-476 | every accepted string is such a list; byte 5 is never a plus sign |
| `Combo.ParseIgnoresCase` | crates/toothpaste-desktop-service/src/modules/mcp/mod.rs:434-450 | ASCII letter case makes no difference |
| `Storage.StorageService.Open` | crates/toothpaste-desktop-service/src/modules/storage.rs:39-80 | reads or replaces the master key, derives the cipher key, loads the file; the keyring entry cannot be had, the new key cannot be written, the file cannot be read, or it is not a map |
| `Storage.StorageService.Get` | crates/toothpaste-desktop-service/src/modules/storage.rs:82-91 | the value or the precise error |
| `Storage.StorageService.Put` | crates/toothpaste-desktop-service/src/modules/storage.rs:93-103 | memory and file after every outcome of sealing and writing |
| `Storage.StorageService.Remove` | crates/toothpaste-desktop-service/src/modules/storage.rs:105-108 | memory and file after every outcome of writing |
| `Storage.SetWrites` | crates/toothpaste-desktop-service/src/modules/storage.rs:93-103 | an entry is the Base64 text of nonce and sealed value, in memory and, if written, in the file |
| `Storage.LookupOpens` | crates/toothpaste-desktop-service/src/modules/storage.rs:82-91 | a lookup succeeds exactly with what opens under the store's key from such an entry, and each error has its cause |
| `Storage.LookupIsLastWrite` | crates/toothpaste-desktop-service/src/modules/storage.rs:82-108 | after any operations a lookup answers with the last value set and not deleted, and untouched keys as before, down to the error |
| `Storage.StoreRefinesMap` | crates/toothpaste-desktop-service/src/modules/storage.rs:82-112 | the decrypted view of the store follows a plain map through any operations |
| `Storage.ReopenRestores` | crates/toothpaste-desktop-service/src/modules/storage.rs:39-80 | after an acknowledged operation the file equals memory, and opening it with the same key and password restores the store |
| `Ecdh.EcdhContext.GenerateDeviceKeys` | crates/toothpaste-desktop-service/src/modules/crypto.rs:106-127 | a new active session without an AES key; nothing is stored |
| `Ecdh.EcdhContext.LoadDeviceKeys` | crates/toothpaste-desktop-service/src/modules/crypto.rs:133-155 | which session becomes active, with which key, and the error, in every case |
| `Ecdh.EcdhContext.DeriveAesKey` | crates/toothpaste-desktop-service/src/modules/crypto.rs:227-244 | the active session gets the key of the agreed secret and the salt, or nothing changes |
| `Ecdh.EcdhContext.SaveSession` | crates/toothpaste-desktop-service/src/modules/crypto.rs:158-166 | the active record is stored under its own device |
| `Ecdh.EcdhContext.GetStoredPublicKey` | crates/toothpaste-desktop-service/src/modules/crypto.rs:180-184 | the stored public key or the precise error |
| `Ecdh.EcdhContext.PairNewDevice` | crates/toothpaste-desktop-service/src/modules/crypto.rs:290-297 | decompression, generation and saving, with the state left by each failure |
| `Ecdh.EcdhContext.EncryptBytes` | crates/toothpaste-desktop-service/src/modules/crypto.rs:252-265 | nonce, ciphertext and tag under the active key, or an error |
| `Ecdh.EcdhContext.DecryptBytes` | crates/toothpaste-desktop-service/src/modules/crypto.rs:268-282 | the plaintext, or an error |
| `Ecdh.StoredReadsEntry` | crates/toothpaste-desktop-service/src/modules/crypto.rs:180-184 | the session of a device is what is read from the entry named after it |
| `Ecdh.LoadDerivesKey` | crates/toothpaste-desktop-service/src/modules/crypto.rs:133-155 | loading succeeds exactly if the session can be read and the peer's key is a point, and gives the HKDF-SHA256 key of the agreed secret with the challenge, unless empty, as salt |
| `Ecdh.DecryptUndoesEncrypt` | crates/toothpaste-desktop-service/src/modules/crypto.rs:252-282 | decryption inverts encryption |
| `Ecdh.SoundAlways` | crates/toothpaste-desktop-service/src/modules/crypto.rs:106-184 | through any operations every readable session entry belongs to its device and has matching key halves |
| `Ecdh.RecordStays` | crates/toothpaste-desktop-service/src/modules/crypto.rs:106-184 | a device's record survives every operation except pairing that device |
| `Ecdh.PairedKeyLasts` | crates/toothpaste-desktop-service/src/modules/crypto.rs:290-297 | the public key a pairing returned is the one the store reports and every load returns, until the device is paired again |
| `Ecdh.PairingIsPossible` | crates/toothpaste-desktop-service/src/modules/crypto.rs:290-297 | there are functions that meet the laws, and with them pairing succeeds on any store |
| `BleSession.MakePacket` | crates/toothpaste-desktop-service/src/modules/ble/interface.rs:382-394 | nonce, ciphertext and tag concatenate to the blob, with the sizes of section 5.2 of RFC 5116 and no underflow |
| `BleSession.EveryPacketIsAuthorised` | crates/toothpaste-desktop-service/src/modules/ble/interface.rs:372-397 | every packet ever sent is sealed under the HKDF-SHA256 key of the secret agreed in the connected device's stored session and the last challenge that keyed it, with no pairing since; data_len is the payload's length |
| `BleSession.PeerOpensEveryPacket` | crates/toothpaste-desktop-service/src/modules/ble/interface.rs:372-397 | from any store with sound sessions, paired in this run or before it: the peer of the keyed session, deriving its key from the session's public key, or from the one the radio last took with a greeting or after a pairing, and the challenge (sections 2.2 and 2.3 of RFC 5869), opens every packet and finds the payload |
| `BleSession.PairedPeerOpensEveryPacket` | crates/toothpaste-desktop-service/src/modules/ble/interface.rs:278-300 | after a pairing the session is for the peer whose compressed key was given, whatever the store held at first, and that peer opens every packet |
| `BleSession.PacketExactlyWhenKeyed` | crates/toothpaste-desktop-service/src/modules/crypto.rs:252-265 | in every reachable state a packet is produced exactly if the last session change was a challenge that keyed it and sealing succeeds |
| `BleSession.RefusedKeyIsNotRepeated` | crates/toothpaste-desktop-service/src/modules/ble/interface.rs:286-292 | after a pairing whose public key the radio refused the stored session is the new one, and the device is without its key along every run until a later pairing's key is taken |
| `BleSession.PlainIsOffers` | crates/toothpaste-desktop-service/src/modules/ble/interface.rs:163-169 | along every run, what goes out unencrypted is exactly the Base64 text of every public key offered, in order |
| `BleState.ConnectGreets` | crates/toothpaste-desktop-service/src/modules/ble/interface.rs:133-154 | connecting sends exactly the public key of a readable session, shows the device, and enters the loop exactly if it can be subscribed to |
| `BleState.ScanAndConnectOutside` | crates/toothpaste-desktop-service/src/main.rs:134-147 | within a session scanning and connecting do nothing; outside it a scan shows what it found |
| `BleState.OthersOnlySend` | crates/toothpaste-desktop-service/src/modules/ble/interface.rs:187-316 | input and all other commands change nothing but what is sent, keepalives and unknown notifications nothing at all |
| `BleState.PairingReplacesSession` | crates/toothpaste-desktop-service/src/modules/ble/interface.rs:278-300 | a pairing command replaces the session exactly if it decodes to a compressed point of thirty-three bytes within a session, by one for that point |
| `BleState.LastVerdictIsShown` | crates/toothpaste-desktop-service/src/modules/ble/interface.rs:33-82 | the state shown is the device's last verdict, whatever follows; nothing else is changed |
| `BleState.AuthenticatedWithoutKey` | crates/toothpaste-desktop-service/src/modules/ble/interface.rs:61-80 | a device without a session is shown as authenticated, and nothing can be sent to it |
| `BleState.EndsExactly` | crates/toothpaste-desktop-service/src/modules/ble/interface.rs:52-82 | exactly when the task ends |
| `BleState.BufferIsPushed` | crates/toothpaste-desktop-service/src/modules/ble/interface.rs:206-211 | along every run the serial buffer holds what the lines that arrived push into it |
| `BleSession.RunKeepsInv` | crates/toothpaste-desktop-service/src/modules/ble/interface.rs:174-317 | session, store and log stay consistent through any notifications, input, commands and foreign publishes |
| `Delivery.ClipboardArrivesAsPrefix` | crates/toothpaste-desktop-service/src/modules/ble/interface.rs:326-332 | whatever fails, the device holds the first min(100k, n) characters of the sanitized text after k messages |
| `Delivery.ArrivesUpToFailure` | crates/toothpaste-desktop-service/src/modules/ble/interface.rs:326-332 | exactly the messages before the first that is not encrypted and taken arrive |
| `Delivery.AskedIsSent` | crates/toothpaste-desktop-service/src/modules/ble/interface.rs:217-273 | what is sent for an event or a command, by the fields of the messages: text and codes with their lengths, pieces of the clipboard, media keys, mouse packets |
| `Delivery.WrapKeepsLowBits` | crates/toothpaste-desktop-service/src/modules/ble/interface.rs:242 | the scroll distance keeps the low 32 bits |
| `Delivery.AskedArrives` | crates/toothpaste-desktop-service/src/modules/ble/interface.rs:187-316 | along every run the radio took exactly what was asked for and passed, in order |
| `Delivery.ButtonsFollowLastMouseEvent` | crates/toothpaste-desktop-service/src/modules/ble/interface.rs:219-251 | from any state and whatever follows, the device holds the buttons the last mouse event asks for exactly if that packet was encrypted and taken by the radio or it held just those before |
| `Delivery.RefusedReleaseKeepsButton` | crates/toothpaste-desktop-service/src/modules/ble/interface.rs:232-239 | a release that the radio refuses leaves the button down |
| `Delivery.MovementReleasesButton` | crates/toothpaste-desktop-service/src/modules/ble/interface.rs:221-223 | a movement that arrives while a button is held lets go of it |
| `Desktop.DeviceMovesAsDue` | crates/toothpaste-desktop-service/src/modules/ble/interface.rs:217-251 | from the cursor to the device, along every run of all tasks: after k movements arrived the device has moved, to within k/2 per axis and exactly for integral movements, as far as the cursor and the MCP server asked, less what is pending, refused, discarded, waiting in the queue, or not taken by the radio |
| `Desktop.ButtonsAreRight` | crates/toothpaste-desktop-service/src/modules/input/handler.rs:194-198 | along every run the device holds the buttons whose last event was a press exactly if none is held and the last mouse event that arrived is no press of a left or right button, or one is held and the last mouse event that arrived is its press |
| `Desktop.SmoothButtons` | crates/toothpaste-desktop-service/src/modules/ble/interface.rs:224-239 | if every click is captured, queued, sent and taken: exactly if none is held, or one is and nothing else of the mouse arrived since its press |
| `Desktop.RunKeepsJoined` | crates/toothpaste-desktop-service/src/main.rs:119-125 | along every run handler and BLE task see one application state, and the queue is closed once the task has died |
| `Desktop.NothingAfterTheEnd` | crates/toothpaste-desktop-service/src/modules/ble/interface.rs:52-54 | once the BLE task has ended nothing enters or leaves the queue and nothing is sent |
| `Desktop.AskedReachesDevice` | crates/toothpaste-desktop-service/src/modules/ble/interface.rs:217-273 | along every run of all tasks the device received exactly what the events taken from the queue and the commands asked for and what passed, in order |
| `Desktop.QueueReachesDevice` | crates/toothpaste-desktop-service/src/modules/ble/interface.rs:217-273 | if everything passes, the device receives what every event that enters the queue asks for, once and in order |
| `BleInterface.BLEInterface.EncryptAndSend` | crates/toothpaste-desktop-service/src/modules/ble/interface.rs:372-397 | one payload is encrypted and handed to the radio, or refused without a key |
| `BleInterface.BLEInterface.SendPayloads` | crates/toothpaste-desktop-service/src/modules/ble/interface.rs:326-332 | payloads go out in order up to the first failure; success means all were delivered |
| `BleInterface.BLEInterface.HandleChallenge` | crates/toothpaste-desktop-service/src/modules/ble/interface.rs:58-82 | keys are loaded, the state becomes authenticated either way, and the task dies if no device is recorded as connected |
| `BleInterface.BLEInterface.HandleNotification` | crates/toothpaste-desktop-service/src/modules/ble/interface.rs:191-214 | one turn of the loop on a notification |
| `BleInterface.BLEInterface.HandleInput` | crates/toothpaste-desktop-service/src/modules/ble/interface.rs:217-274 | one turn of the loop on an input event |
| `BleInterface.BLEInterface.HandlePair` | crates/toothpaste-desktop-service/src/modules/ble/interface.rs:278-300 | pairing, with the state left by each failure |
| `BleInterface.BLEInterface.ConnectToDevice` | crates/toothpaste-desktop-service/src/modules/ble/interface.rs:133-154 | the connection, the greeting to a known device, and the published state |
| `BleInterface.BLEInterface.HandleCommand` | crates/toothpaste-desktop-service/src/main.rs:131-175 | one command, before or inside the session loop |
| `BleInterface.BLEInterface.HandleSteps` | crates/toothpaste-desktop-service/src/modules/ble/interface.rs:187-316 | the object, given any notifications, input, commands and foreign publishes, follows the specification of runs |
| `BleInterface.Serve` | crates/toothpaste-desktop-service/src/modules/ble/interface.rs:174-317 | every packet that the object ever sent is authorised, and its peer opens it |
| `Packets.RoundIsClose` | crates/toothpaste-desktop-proto/src/packets.rs:28-29 | rounding half away from zero is off by at most one half |
| `Packets.RoundsHalvesAway` | crates/toothpaste-desktop-proto/src/packets.rs:28-29 | halves are rounded away from zero on both sides |
| `Packets.CastIsNearest` | crates/toothpaste-desktop-proto/src/packets.rs:28-29 | the cast gives the nearest 32-bit integer |
| `Packets.ChunkAt` | crates/toothpaste-desktop-proto/src/packets.rs:74-80 | message k is exactly characters 100k to 100k+99, nonempty, with its length; only the last may be shorter |
| `Packets.ChunkCount` | crates/toothpaste-desktop-proto/src/packets.rs:74-80 | there are ceil(n/100) messages |
| `Packets.PrefixDelivered` | crates/toothpaste-desktop-proto/src/packets.rs:74-80 | the first k messages concatenate to the first min(100k, n) characters, all of them to the text |
| `Packets.SanitizeKeepsTypeableText` | crates/toothpaste-desktop-service/src/modules/ble/interface.rs:253-257 | sanitized text is an in-order part of the original, typeable, and keeps every graphic ASCII character |
| `Packets.TrimCutsWhitespace` | crates/toothpaste-desktop-service/src/modules/ble/interface.rs:253-254 | trimming cuts all whitespace off both ends and nothing else |
| `Packets.SanitizeKeepsCounts` | crates/toothpaste-desktop-service/src/modules/ble/interface.rs:253-257 | within the trimmed text every typeable character, space included, is kept as often as it occurs |
| `Packets.ClipboardMessagesFit` | crates/toothpaste-desktop-service/src/modules/ble/interface.rs:252-264 | no message from the clipboard exceeds one hundred bytes of UTF-8 |
| `Serial.SerialBuffer.Push` | crates/toothpaste-desktop-service/src/modules/ble/interface.rs:206-211 | nonempty data is appended |
| `Serial.SerialBuffer.Read` | crates/toothpaste-desktop-service/src/modules/mcp/mod.rs:402-411 | a read returns the buffer and, if asked, empties it |
| `Serial.DeliveredOnce` | crates/toothpaste-desktop-service/src/modules/mcp/mod.rs:402-411 | under every interleaving each nonempty line is in exactly one clearing read or still buffered, in order |
| `Serial.ReadReturnsSinceClear` | crates/toothpaste-desktop-service/src/modules/mcp/mod.rs:402-411 | every read returns exactly the nonempty lines since the last clearing read |
| `Navigation.PathsAreRegular` | crates/toothpaste-desktop-tui/src/tui/mod.rs:78-166 | every reachable stack is Home, device lists, then nothing, Scanning, Connected, or Connected and PairingInput; depth at most two plus rescans; exit only from Home |
| `Navigation.AutoTransitionSettles` | crates/toothpaste-desktop-tui/src/tui/mod.rs:96-139 | one pass of the automatic transitions leaves none applicable; a pass changes nothing exactly if none applied |
| `ClientKeys.AutoTransitionLeads` | crates/toothpaste-desktop-tui/src/tui/mod.rs:96-139 | where one pass leads, for every screen and state |
| `ClientKeys.LostServiceLeadsHome` | crates/toothpaste-desktop-tui/src/tui/mod.rs:79-94 | taking a report of the service: if it is gone only a new home screen is left, otherwise the screens are those the automatic transitions lead to |
| `ClientKeys.AppReportIsTaken` | crates/toothpaste-desktop-tui/src/tui/mod.rs:91-94 | taking a report of the application's state without one of the service |
| `ClientKeys.LosingServiceShowsHome` | crates/toothpaste-desktop-tui/src/tui/mod.rs:78-94 | after any run whose end takes in the loss of the service the client shows home alone, and Backspace quits |
| `Navigation.BackspaceDecreases` | crates/toothpaste-desktop-tui/src/tui/screens/pairing_input.rs:63-69 | each Backspace press lowers the distance to the exit by one |
| `Navigation.BackspacesQuit` | crates/toothpaste-desktop-tui/src/tui/mod.rs:142-166 | while the service is quiet exactly depth of the stack + length of the typed text + 1 presses quit |
| `Navigation.CommandsAreSound` | crates/toothpaste-desktop-tui/src/tui/screens/pairing_input.rs:36-59 | a pairing command always carries a key that decodes to thirty-three bytes |
| `ClientKeys.ShutsDownExactly` | crates/toothpaste-desktop-tui/src/tui/screens/home.rs:52-97 | exactly when a key shuts the service down |
| `ClientKeys.ScansExactly` | crates/toothpaste-desktop-tui/src/tui/screens/device_list.rs:49-69 | exactly when a key scans and leads to the scanning screen |
| `ClientKeys.DisconnectsExactly` | crates/toothpaste-desktop-tui/src/tui/screens/connected.rs:45-79 | exactly when a key disconnects |
| `ClientKeys.ConnectsExactly` | crates/toothpaste-desktop-tui/src/tui/screens/device_list.rs:71-84 | exactly when a key connects, and to which device |
| `ClientKeys.PairsExactly` | crates/toothpaste-desktop-tui/src/tui/screens/pairing_input.rs:36-59 | exactly when a key pairs, and with which text |
| `ClientKeys.NoOtherCommands` | crates/toothpaste-desktop-tui/src/tui/mod.rs:142-149 | no key sends any other command |
| `ClientKeys.LeavesExactly` | crates/toothpaste-desktop-tui/src/tui/mod.rs:142-166 | exactly when a key leaves a screen |
| `ClientKeys.LeadsOnExactly` | crates/toothpaste-desktop-tui/src/tui/mod.rs:142-166 | exactly when a key leads to another screen |
| `ClientKeys.OtherKeysChangeNothing` | crates/toothpaste-desktop-tui/src/tui/mod.rs:142-149 | other keys change nothing on the screen |
| `ClientKeys.BackspaceUndoesTyping` | crates/toothpaste-desktop-tui/src/tui/screens/pairing_input.rs:63-85 | Backspace takes back the last character typed |
| `ClientKeys.RefusedKeyStays` | crates/toothpaste-desktop-tui/src/tui/screens/pairing_input.rs:36-59 | a refused key stays as typed, and the status says why |
| `ClientKeys.DownReachesEveryLine` | crates/toothpaste-desktop-tui/src/tui/screens/home.rs:52-61 | n presses of Down select the nth line below |
| `ClientKeys.UpUndoesDown` | crates/toothpaste-desktop-tui/src/tui/screens/home.rs:52-61 | Up takes back Down and stays on the first line |
| `ClientKeys.BackRestores` | crates/toothpaste-desktop-tui/src/tui/mod.rs:151-166 | a covered screen comes back as it was left |
| `Navigation.EnterPerformsHighlighted` | crates/toothpaste-desktop-tui/src/tui/mod.rs:62-76 | a screen is drawn, the service reports anything, Enter is pressed: the key performs the highlighted item, or nothing without one, exactly if the service is up or down as drawn; a device is recorded and authenticated or not as drawn; the list holds the device drawn there; or the selected line means nothing then and now |
| `Navigation.PairItemDisconnects` | crates/toothpaste-desktop-tui/src/tui/screens/connected.rs:64-79 | pairing is highlighted, the device authenticates, Enter disconnects |
| `Navigation.ShutDownItemQuits` | crates/toothpaste-desktop-tui/src/tui/screens/home.rs:74-97 | shutting down is highlighted, the service goes away, Enter quits and sends nothing |
| `Navigation.AnotherDeviceIsConnected` | crates/toothpaste-desktop-tui/src/tui/screens/device_list.rs:71-84 | one device is highlighted, a scan puts another in its place, Enter connects to that one |
| `Navigation.EmptyScreenOpensPairing` | crates/toothpaste-desktop-tui/src/tui/screens/connected.rs:86-89 | a run that reaches an empty connected screen on which Enter opens pairing |
| `TuiApp.HomeScreen.HandleKey` | crates/toothpaste-desktop-tui/src/tui/screens/home.rs:52-97 | the home screen's keys |
| `TuiApp.DeviceListScreen.HandleKey` | crates/toothpaste-desktop-tui/src/tui/screens/device_list.rs:49-84 | the device list's keys and the connecting latch |
| `TuiApp.ConnectedScreen.HandleKey` | crates/toothpaste-desktop-tui/src/tui/screens/connected.rs:45-79 | the connected screen's keys |
| `TuiApp.PairingInputScreen.HandleKey` | crates/toothpaste-desktop-tui/src/tui/screens/pairing_input.rs:63-85 | typing, deleting and leaving |
| `TuiApp.PairingInputScreen.Submit` | crates/toothpaste-desktop-tui/src/tui/screens/pairing_input.rs:36-59 | what is sent, or the status that is shown |
| `TuiApp.ToothPasteTUI.HandleKeypress` | crates/toothpaste-desktop-tui/src/tui/mod.rs:142-149 | one key press changes current screen, stack and commands as specified, and no screen object is shared |
| `TuiApp.ToothPasteTUI.ApplyNavSignal` | crates/toothpaste-desktop-tui/src/tui/mod.rs:151-166 | push, pop or exit |
| `TuiApp.ToothPasteTUI.SyncAppState` | crates/toothpaste-desktop-tui/src/tui/mod.rs:78-140 | one synchronisation with the service |
| `TuiApp.ToothPasteTUI.HandleSteps` | crates/toothpaste-desktop-tui/src/tui/mod.rs:62-76 | the client object follows the specification over any rounds of its loop, creating screens but never sharing them |
| `TuiApp.RunClient` | crates/toothpaste-desktop-tui/src/tui/mod.rs:40-76 | its stack always has the stated form, it exits only from home, and its pairing commands are sound |
| `Ipc.LineReader.Feed` | crates/toothpaste-desktop-tui/src/main.rs:63-92 | the lines a chunk completes and what stays pending |
| `Ipc.ParseSplits` | crates/toothpaste-desktop-tui/src/main.rs:63-76 | cutting the stream anywhere makes no difference |
| `Ipc.MessagesArriveInOrder` | crates/toothpaste-desktop-service/src/main.rs:254-258 | newline-free lines arrive whole and in order, as a prefix if the connection breaks; unchanged exactly if none ends in a carriage return |
| `Ipc.ObjectsArriveUnchanged` | crates/toothpaste-desktop-tui/src/main.rs:88-92 | the program's messages, which are JSON objects, always arrive unchanged |
| `Ipc.ClientFollowsService` | crates/toothpaste-desktop-service/src/main.rs:219-252 | the client sees states in publication order and, once the channels drain, the latest |
| `Ipc.ClientCatchesUp` | crates/toothpaste-desktop-service/src/main.rs:219-235 | from every reachable state one turn of the forwarder and the delivery of the pipe show the client the latest state |
| `Handshake.UnknownPeerAsks` | crates/toothpaste-desktop-service/src/modules/ble/interface.rs:33-50 | an unknown peer makes the waiting client ask for a key |
| `Handshake.TypedKeyIsSent` | crates/toothpaste-desktop-tui/src/tui/screens/pairing_input.rs:36-59 | typed text that decodes is sent as a pairing command |
| `Handshake.PairingThenChallengeKeys` | crates/toothpaste-desktop-service/src/modules/crypto.rs:290-297 | a stored pairing followed by a challenge keys the session with that peer |
| `Handshake.HandshakeCompletes` | crates/toothpaste-desktop-service/src/modules/ble/interface.rs:276-300 | the whole dialogue: unknown peer, typed key, pairing, challenge, a session keyed for that peer, which opens what is sent next, and the client on the connected screen |

## Left out

- Floating point: coordinates are reals, so rounding errors, infinities and NaN of 64-bit floats do not appear; the cast to 32-bit integers saturates as in the program.
- Scrolling: wheel dispatch is commented out, and `handle_scroll_event` is never reached; the accumulator it would share is modelled.
- BLE discovery, connection and retries, named pipes, HTTP routing, process spawning, notifications and key hooks are calls into the system without logic of their own; opening the clipboard is assumed not to fail.
- The endless loops of the BLE task and the client are modelled one turn at a time; which branch is ready first is left open.
- The serialised forms of states, commands, packets and the settings file are not modelled, only that a written settings file reads back as the same map.
- `ipc_bridge` reconnection and `auto_connect_task`: retry timing, and the default state published while the service is away, appear only as arbitrary state changes of the client.
- A final line without its newline, which the reader would still hand to the JSON decoder when a connection closes, is not counted as a message.
- The drawing library may clamp the selection of a list while drawing; the model lets drawing set any selection, and an item is highlighted if it is the selected one. Colours, labels and animations do not appear.
- Rename, mouse stream and settings commands carry no logic beyond copying their arguments.
- Ecdh.EcdhContext.LoadDeviceKeys: does not model the debug printing of keys and challenges, or the Base64 copy of the key kept for it.
- Combo.ParseKeyCombo: Unicode lower-casing is any function that is ASCII lower-casing on ASCII text, ignores ASCII case and never produces a plus sign.
- Storage.ReopenRestores: speaks of a master key that the keyring returns; a keyring that cannot be read but can be written has its key replaced, as `Storage.StorageService.Open` states, and the old entries no longer decrypt.
- That the peer's firmware behaves as assumed is not part of this model; a peer is any source of notifications, or a holder of a private key.
