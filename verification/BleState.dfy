/** What the BLE task makes of each notification and command: what it shows, what it greets with, and when it ends. */
module BleState {
  import opened Basics
  import opened AppModel
  import opened Packets
  import opened Primitives
  import opened Storage
  import opened Ecdh
  import opened BleSession
  import Serial

  // ---- Connecting ---------------------------------------------------------

  /** Connecting greets a device with a readable session: if the radio takes it, exactly the Base64 text of that
      session's public key goes out, and nothing goes out to any other device. The device is shown as not
      authenticated yet, and the session loop runs exactly if it can be subscribed to. */
  lemma ConnectGreets(f: Suite, s: Service, device: Device, w: World, mac: string)
    requires !s.stopped && !s.running && w.mac == Some(mac)
    ensures var t := Next(f, s, Command(ConnectToDevice(device), w));
            && t.plain == s.plain + (match Stored(f, s.ctx, mac)
                                     case Success(r) => if w.radio(0) then [f.encode64(r.publicKey)] else []
                                     case Failure(_) => [])
            && t.app == s.app.(connectedDevice := Some(device.(state := Connected(NotAuthenticated, "Unknown"))))
            && t.deviceId == Some(mac) && (t.running <==> w.subscribed)
            && t.ctx == s.ctx && t.serial == s.serial && !t.stopped
  {
  }

  /** Connecting does nothing within a session, nor if the device does not answer; scanning does nothing within a
      session, and shows exactly what it found outside one. */
  lemma ScanAndConnectOutside(f: Suite, s: Service, device: Device, w: World)
    requires !s.stopped
    ensures s.running || w.mac.None? ==> Next(f, s, Command(ConnectToDevice(device), w)) == s
    ensures var t := Next(f, s, Command(ScanForDevices, w));
            t == s.(app := t.app) && t.app == s.app.(devices := if s.running || w.scanned.None? then s.app.devices
                                                                else w.scanned.value)
  {
  }

  /** Input and the other commands, disconnecting among them, change nothing but what is sent; keepalives and unknown
      notifications change nothing at all. */
  lemma OthersOnlySend(f: Suite, s: Service, step: Step)
    requires || step.Input?
             || (step.Command? && !step.cmd.KillService? && !step.cmd.ScanForDevices?
                 && !step.cmd.ConnectToDevice? && !step.cmd.PairDevice?)
             || (step.Notify? && (step.response.Keepalive? || step.response.UnknownResponse?))
    ensures Next(f, s, step) == s.(log := Next(f, s, step).log)
    ensures step.Notify? || (step.Input? && !s.running) ==> Next(f, s, step) == s
  {
  }

  // ---- Pairing ------------------------------------------------------------

  /** A pairing command replaces the session exactly if the task runs for a device and the text decodes to a compressed
      point of thirty-three bytes; the new session is for that device and that point, with a new key pair and
      no AES key yet. */
  lemma PairingReplacesSession(f: Suite, s: Service, device: Device, pubKey: string, w: World)
    requires !s.stopped
    ensures var t := Next(f, s, Command(PairDevice(device, pubKey), w));
            if s.running && s.deviceId.Some? && f.decode64(pubKey).Some? && |f.decode64(pubKey).value| == 33
               && f.decompress(f.decode64(pubKey).value).Some?
            then t.ctx.active == Some(Session(SessionRecord(s.deviceId.value, w.secret, f.publicKey(w.secret),
                                                            f.decompress(f.decode64(pubKey).value).value), None))
            else t == s
  {
    if f.decode64(pubKey).Some? {
      var peer := f.decode64(pubKey).value;
      if s.deviceId.Some? && f.decompress(peer).Some? {
        SaveStores(f, Generate(f, s.ctx, s.deviceId.value, f.decompress(peer).value, w.secret), w.nonce(0), w.disk, "");
      }
    }
  }

  // ---- What is shown ------------------------------------------------------

  predicate IsVerdict(step: Step) { step.Notify? && (step.response.PeerUnknown? || step.response.Challenge?) }

  /** What a verdict of the device makes of its state; a challenge brings the version of the firmware along. */
  predicate Shows(state: DeviceState, before: DeviceState, r: Response)
    requires r.PeerUnknown? || r.Challenge?
  {
    && state.Connected?
    && (r.PeerUnknown? ==> state.authState == AuthenticationFailed)
    && (r.PeerUnknown? && before.Connected? ==> state.firmwareVersion == before.firmwareVersion)
    && (r.PeerUnknown? && !before.Connected? ==> state.firmwareVersion == "Unknown")
    && (r.Challenge? ==> state.authState.Authenticated? && state.firmwareVersion == r.firmware)
  }

  lemma NoVerdictShowsNothing(f: Suite, s: Service, step: Step)
    requires s.running && !IsVerdict(step) && !step.Publish?
    ensures var t := Next(f, s, step);
            t.app == s.app && t.running && t.deviceId == s.deviceId
  {
  }

  lemma {:induction false} NoVerdictsShowNothing(f: Suite, s: Service, steps: seq<Step>)
    requires s.running && forall step :: step in steps ==> !IsVerdict(step) && !step.Publish?
    ensures Run(f, s, steps).app == s.app
    decreases |steps|
  {
    if steps != [] {
      assert steps[0] in steps && forall step :: step in steps[1..] ==> step in steps;
      NoVerdictShowsNothing(f, s, steps[0]);
      NoVerdictsShowNothing(f, Next(f, s, steps[0]), steps[1..]);
    }
  }

  /** The state shown for the connected device is the device's last verdict, whatever input, commands and other
      notifications follow; all else about the device and the application stays as it was. A challenge shows
      it as authenticated whether or not a key could be loaded. */
  lemma LastVerdictIsShown(f: Suite, s: Service, r: Response, rest: seq<Step>)
    requires !s.stopped && s.running && s.deviceId.Some? && s.app.connectedDevice.Some?
    requires r.PeerUnknown? || r.Challenge?
    requires forall step :: step in rest ==> !IsVerdict(step) && !step.Publish?
    ensures var end := Run(f, s, [Notify(r)] + rest);
            && end.app.connectedDevice.Some?
            && var before, after := s.app.connectedDevice.value, end.app.connectedDevice.value;
               && Shows(after.state, before.state, r) && after == before.(state := after.state)
               && end.app == s.app.(connectedDevice := end.app.connectedDevice)
  {
    assert ([Notify(r)] + rest)[1..] == rest;
    NoVerdictsShowNothing(f, Next(f, s, Notify(r)), rest);
  }

  /** So a device without a stored session is shown as authenticated, and yet nothing can be sent to it. */
  lemma AuthenticatedWithoutKey(f: Suite, s: Service, data: Bytes, firmware: string, payload: EncryptedData, w: World)
    requires !s.stopped && s.running && s.deviceId.Some? && s.app.connectedDevice.Some?
    requires Stored(f, s.ctx, s.deviceId.value).Failure? && s.ctx.active.None?
    ensures var t := Next(f, s, Notify(Challenge(data, firmware)));
            && t.app.connectedDevice.Some? && t.app.connectedDevice.value.state.Connected?
            && t.app.connectedDevice.value.state.authState.Authenticated? && SendNow(f, t.ctx, payload, w, 0) == []
  {
  }

  /** The task ends exactly when it is told to, when the device sends the notification that is not implemented, or
      when a challenge arrives although no device is recorded as connected. */
  lemma EndsExactly(f: Suite, s: Service, step: Step)
    requires !s.stopped
    ensures Next(f, s, step).stopped <==>
      || (step.Command? && step.cmd.KillService?)
      || (step.Notify? && s.running && s.deviceId.Some?
          && (step.response.PeerKnown? || (step.response.Challenge? && s.app.connectedDevice.None?)))
  {
  }

  lemma {:induction false} EndedIsFinal(f: Suite, s: Service, steps: seq<Step>)
    requires s.stopped
    ensures Run(f, s, steps) == s
    decreases |steps|
  {
    if steps != [] {
      EndedIsFinal(f, s, steps[1..]);
    }
  }

  // ---- Lines from the device ----------------------------------------------

  /** The lines that arrive while the session loop runs. */
  function LinesOf(f: Suite, s: Service, steps: seq<Step>): seq<Serial.Step>
    decreases |steps|
  {
    if steps == [] then []
    else
      (if !s.stopped && s.running && s.deviceId.Some? && steps[0].Notify? && steps[0].response.SerialData?
       then [Serial.Push(steps[0].response.text)] else [])
      + LinesOf(f, Next(f, s, steps[0]), steps[1..])
  }

  lemma StepPushes(f: Suite, s: Service, step: Step)
    ensures var pushed := !s.stopped && s.running && s.deviceId.Some? && step.Notify? && step.response.SerialData?;
            Next(f, s, step).serial
            == if pushed then Serial.Next(s.serial, Serial.Push(step.response.text)) else s.serial
  {
  }

  lemma OneLine(buffer: seq<string>, line: Serial.Step, rest: seq<Serial.Step>)
    requires line.Push?
    ensures Serial.Next(buffer, line) + Serial.Pushed(rest) == buffer + Serial.Pushed([line] + rest)
  {
    assert ([line] + rest)[1..] == rest && [line][1..] == [];
    Serial.PushedAppend([line], rest);
    Regroup(buffer, Serial.Pushed([line]), Serial.Pushed(rest));
    assert buffer + [] == buffer;
  }

  /** Along every run the buffer holds what the lines that arrived push into it, so `Serial.DeliveredOnce` applies. */
  lemma {:induction false} BufferIsPushed(f: Suite, s: Service, steps: seq<Step>)
    ensures Run(f, s, steps).serial == s.serial + Serial.Pushed(LinesOf(f, s, steps))
    decreases |steps|
  {
    if steps == [] {
      assert s.serial + [] == s.serial;
    } else {
      var n := Next(f, s, steps[0]);
      var rest := LinesOf(f, n, steps[1..]);
      StepPushes(f, s, steps[0]);
      BufferIsPushed(f, n, steps[1..]);
      if !s.stopped && s.running && s.deviceId.Some? && steps[0].Notify? && steps[0].response.SerialData? {
        OneLine(s.serial, Serial.Push(steps[0].response.text), rest);
      } else {
        assert LinesOf(f, s, steps) == [] + rest == rest;
      }
    }
  }
}
