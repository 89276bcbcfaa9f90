/** The BLE task as it is written: an object that reacts to notifications, input events and commands, one at a time. */
module BleInterface {
  import opened Basics
  import opened AppModel
  import opened Packets
  import opened Primitives
  import opened Storage
  import opened Ecdh
  import opened BleSession
  import opened Delivery
  import Serial

  class BLEInterface {
    const f: Suite
    const ecdh: EcdhContext
    const appState: StateCell
    const serialBuffer: Serial.SerialBuffer
    var deviceId: Option<string>
    var running: bool
    var stopped: bool
    // The texts the radio took unencrypted.
    var plain: seq<string>
    ghost var log: seq<Entry>

    ghost predicate Valid()
    {
      ecdh.Valid() && f == ecdh.f
    }

    ghost function State(): Service
      reads this, ecdh, ecdh.storage, ecdh.storage.file, appState, serialBuffer
    {
      Service(ecdh.State(), deviceId, running, stopped, appState.value, serialBuffer.lines, plain, log)
    }

    constructor (storage: StorageService, appState: StateCell)
      ensures Valid() && this.appState == appState && ecdh.storage == storage && f == storage.f
      ensures State() == Start(storage.State(), appState.value)
      ensures fresh(ecdh) && fresh(serialBuffer)
    {
      var e := new EcdhContext(storage);
      var b := new Serial.SerialBuffer();
      f, ecdh, this.appState, serialBuffer := e.f, e, appState, b;
      deviceId, running, stopped, plain, log := None, false, false, [], [];
    }

    // ---- Sending ------------------------------------------------------------

    /** Encrypts one payload and hands it to the radio. */
    method EncryptAndSend(payload: EncryptedData, nonce: Nonce, radio: bool) returns (ok: bool)
      requires Valid()
      modifies this`log
      ensures var e := Encrypt(f, ecdh.State(), f.encodePayload(payload), nonce);
              && ok == (e.Success? && radio)
              && log == old(log) + if e.Success? then [Sent(payload, MakePacket(e.value), radio)] else []
    {
      var encrypted := ecdh.EncryptBytes(f.encodePayload(payload), nonce);
      if encrypted.Failure? {
        return false;
      }
      var packet := MakePacket(encrypted.value);
      log := log + [Sent(payload, packet, radio)];
      return radio;
    }

    /** Sends the payloads in order and stops at the first failure. */
    method SendPayloads(payloads: seq<EncryptedData>, w: World) returns (ok: bool)
      requires Valid()
      modifies this`log
      ensures log == old(log) + SendAll(f, ecdh.State(), payloads, w, 0)
      ensures ok <==> Delivered(SendAll(f, ecdh.State(), payloads, w, 0)) == payloads
    {
      ghost var c, all := ecdh.State(), SendAll(f, ecdh.State(), payloads, w, 0);
      assert payloads[0..] == payloads && payloads[..0] == [];
      for i := 0 to |payloads|
        invariant ecdh.State() == c
        invariant old(log) + all == log + SendAll(f, c, payloads[i..], w, i)
        invariant Delivered(all) == payloads[..i] + Delivered(SendAll(f, c, payloads[i..], w, i))
      {
        SendAllStep(f, c, payloads[i..], w, i);
        assert payloads[i..][1..] == payloads[i + 1..] && payloads[..i] + [payloads[i]] == payloads[..i + 1];
        ghost var before, now := log, SendNow(f, c, payloads[i], w, i);
        ghost var later := SendAll(f, c, payloads[i + 1..], w, i + 1);
        ok := EncryptAndSend(payloads[i], w.nonce(i), w.radio(i));
        assert log == before + now;
        if !ok {
          assert |Delivered(all)| == i;
          return;
        }
        Regroup(before, now, later);
        Regroup(payloads[..i], [payloads[i]], Delivered(later));
      }
      assert payloads[..|payloads|] == payloads && payloads[|payloads|..] == [];
      ok := true;
    }

    // ---- Notifications ------------------------------------------------------

    method SetAuthState(auth: AuthState, firmware: string)
      requires appState.value.connectedDevice.Some?
      modifies appState
      ensures appState.value == SetConnected(old(appState.value), auth, firmware)
    {
      var device := appState.value.connectedDevice.value;
      appState.value := appState.value.(connectedDevice := Some(device.(state := Connected(auth, firmware))));
    }

    method HandleChallenge(id: string, data: Bytes, firmware: string)
      requires Valid() && deviceId == Some(id)
      modifies this`stopped, this`log, ecdh, appState
      ensures State() == OnChallenge(f, old(State()), id, data, firmware)
    {
      ghost var stored := Stored(f, ecdh.State(), id);
      var loaded := ecdh.LoadDeviceKeys(id, data);
      if stored.Success? {
        log := log + if loaded.Success? then [Keyed(id, stored.value, data)] else [Unkeyed];
      } else {
        assert log + [] == log;
      }
      if appState.value.connectedDevice.None? {
        stopped := true;
      } else {
        SetAuthState(AUTHENTICATED, firmware);
      }
    }

    method HandleNotification(r: Response)
      requires Valid() && running && !stopped && deviceId.Some?
      modifies this`stopped, this`log, ecdh, appState, serialBuffer
      ensures State() == Next(f, old(State()), Notify(r))
    {
      match r
      case Keepalive =>
      case UnknownResponse =>
      case PeerUnknown =>
        if appState.value.connectedDevice.Some? {
          SetAuthState(AuthenticationFailed, FirmwareOf(appState.value.connectedDevice.value));
        }
      case PeerKnown => stopped := true;
      case Challenge(data, firmware) => HandleChallenge(deviceId.value, data, firmware);
      case SerialData(text) => serialBuffer.Push(text);
    }

    // ---- Input and commands -------------------------------------------------

    method HandleInput(e: InputEvent, w: World)
      requires Valid() && running && !stopped
      modifies this`log
      ensures State() == Next(f, old(State()), Input(e, w))
    {
      var _ := SendPayloads(PayloadsOf(e), w);
    }

    method HandlePair(id: string, pubKey: string, w: World)
      requires Valid() && running && deviceId == Some(id)
      modifies this`plain, this`log, ecdh, ecdh.storage`db, ecdh.storage.file
      ensures State() == OnPair(f, old(State()), id, pubKey, w)
    {
      var decoded := f.decode64(pubKey);
      if decoded.None? || |decoded.value| != COMPRESSED_KEY_SIZE {
        return;
      }
      var r := ecdh.PairNewDevice(decoded.value, id, w.secret, w.nonce(0), w.disk);
      if f.decompress(decoded.value).Some? {
        log := log + PairEntries(id, decoded.value, r, w.radio(0));
      }
      if r.Success? {
        plain := plain + if w.radio(0) then [f.encode64(r.value)] else [];
      } else {
        assert plain + [] == plain;
      }
    }

    method ConnectToDevice(device: Device, w: World)
      requires Valid() && !running
      modifies this`deviceId, this`running, this`plain, this`log, appState
      ensures State() == OnConnect(f, old(State()), device, w)
    {
      if w.mac.None? {
        return;
      }
      deviceId := w.mac;
      var ours := ecdh.GetStoredPublicKey(w.mac.value);
      if ecdh.HasSession(w.mac.value) && ours.Success? && w.radio(0) {
        plain := plain + [f.encode64(ours.value)];
        log := log + [Offered(w.mac.value, ours.value)];
      } else {
        assert plain + [] == plain && log + [] == log;
      }
      appState.value := appState.value.(
        connectedDevice := Some(device.(state := Connected(NotAuthenticated, "Unknown"))));
      running := w.subscribed;
    }

    method HandleCommand(cmd: AppCommand, w: World)
      requires Valid() && !stopped
      modifies this, ecdh, ecdh.storage`db, ecdh.storage.file, appState
      ensures State() == Next(f, old(State()), Command(cmd, w))
    {
      match cmd
      case KillService => stopped := true;
      case ScanForDevices =>
        if !running && w.scanned.Some? {
          appState.value := appState.value.(devices := w.scanned.value);
        }
      case ConnectToDevice(device) =>
        if !running {
          ConnectToDevice(device, w);
        }
      case PairDevice(_, pubKey) =>
        if running && deviceId.Some? {
          HandlePair(deviceId.value, pubKey, w);
        }
      case _ =>
        var _ := SendPayloads(CommandPayloads(cmd), w);
    }

    // ---- The loop -----------------------------------------------------------

    /** Whatever is ready next. */
    method HandleStep(step: Step)
      requires Valid()
      modifies this, ecdh, ecdh.storage`db, ecdh.storage.file, appState, serialBuffer
      ensures State() == Next(f, old(State()), step)
    {
      if !stopped {
        match step
        case Publish(app) => appState.value := app;
        case Notify(r) => if running && deviceId.Some? { HandleNotification(r); }
        case Input(e, w) => if running { HandleInput(e, w); }
        case Command(cmd, w) => HandleCommand(cmd, w);
      }
    }

    method HandleSteps(steps: seq<Step>)
      requires Valid()
      modifies this, ecdh, ecdh.storage`db, ecdh.storage.file, appState, serialBuffer
      ensures State() == Run(f, old(State()), steps)
    {
      assert steps[0..] == steps;
      for i := 0 to |steps|
        invariant Run(f, State(), steps[i..]) == Run(f, old(State()), steps)
      {
        assert steps[i..][1..] == steps[i + 1..];
        HandleStep(steps[i]);
      }
    }
  }

  /** The life of a BLE task: whatever arrives, only public keys went out in the clear, every packet it handed to
      the radio was authorised, and the peer of its device's session could open it if the sessions in the store were
      sound to begin with. */
  method Serve(storage: StorageService, appState: StateCell, steps: seq<Step>) returns (b: BLEInterface)
    modifies storage`db, storage.file, appState
    ensures fresh(b) && b.f == storage.f
    ensures b.State() == Run(storage.f, Start(old(storage.State()), old(appState.value)), steps)
    ensures b.plain == Offers(b.f, b.log)
    ensures forall i :: 0 <= i < |b.log| && b.log[i].Sent? ==> Authorised(b.f, b.deviceId, b.log[..i], b.log[i])
    ensures Sound(storage.f, Context(None, old(storage.State()))) ==>
              forall i, d: Scalar :: 0 <= i < |b.log| && b.log[i].Sent? ==> PeerOpens(b.f, b.log[..i], b.log[i], d)
  {
    b := new BLEInterface(storage, appState);
    ghost var store, app := storage.State(), appState.value;
    b.HandleSteps(steps);
    PlainIsOffers(b.f, Start(store, app), steps);
    forall i | 0 <= i < |b.log| && b.log[i].Sent?
      ensures Authorised(b.f, b.deviceId, b.log[..i], b.log[i])
    {
      EveryPacketIsAuthorised(b.f, store, app, steps, i);
    }
    if Sound(b.f, Context(None, store)) {
      forall i, d: Scalar | 0 <= i < |b.log| && b.log[i].Sent?
        ensures PeerOpens(b.f, b.log[..i], b.log[i], d)
      {
        PeerOpensEveryPacket(b.f, store, app, steps, i, d);
      }
    }
  }
}
