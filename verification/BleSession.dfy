/** The BLE task as a state machine: which key every packet that leaves the desktop is sealed under. */
module BleSession {
  import opened Basics
  import opened AppModel
  import opened Packets
  import opened Primitives
  import opened Storage
  import opened Ecdh

  // ---- Packets ------------------------------------------------------------

  datatype DataPacket = DataPacket(iv: Bytes, dataLen: nat, encryptedData: Bytes, tag: Bytes)

  /** Cuts nonce, ciphertext and tag apart. */
  function MakePacket(blob: Bytes): (p: DataPacket)
    requires |blob| >= NONCE_SIZE + TAG_SIZE
    ensures p.iv + p.encryptedData + p.tag == blob
    ensures |p.iv| == NONCE_SIZE && |p.tag| == TAG_SIZE && p.dataLen == AsU32(|p.encryptedData|)
  {
    var tagStart := |blob| - TAG_SIZE;
    DataPacket(blob[..NONCE_SIZE], AsU32(tagStart - NONCE_SIZE), blob[NONCE_SIZE..tagStart], blob[tagStart..])
  }

  /** The integer conversion that keeps the low 32 bits. */
  function WrapI32(n: int): int {
    (n - I32_MIN) % 0x1_0000_0000 + I32_MIN
  }

  /** What the task sends for one input event. */
  function PayloadsOf(e: InputEvent): seq<EncryptedData> {
    match e
    case RDevEvent(event) =>
      (match event.eventType
       case MouseMove(pos) => [CreateMousePacket(pos.x, pos.y, false, false, 0)]
       case ButtonPress(b) => [CreateMousePacket(0.0, 0.0, b.Left?, b.Right?, 0)]
       case ButtonRelease(_) => [CreateMousePacket(0.0, 0.0, false, false, 0)]
       case Wheel(_, dy) => [CreateMousePacket(0.0, 0.0, false, false, WrapI32(dy))]
       case KeyPress(_) => if event.name.Some? then [CreateKeyboardPacket(event.name.value)] else []
       case KeyRelease(_) => if event.name.Some? then [CreateKeyboardPacket(event.name.value)] else [])
    case Clipboard(text) => CreateKeyboardStream(Sanitize(text))
    case Keycode(codes) => [CreateKeycodePacket(codes)]
    case ConsumerControl(code) => [CreateConsumerControlPacket(code)]
  }

  // ---- The machine --------------------------------------------------------

  /** What the machine remembers of the past; no operation reads it. */
  datatype Entry =
    // A challenge gave the active session, loaded from storage, a key.
    | Keyed(deviceId: string, record: SessionRecord, challenge: Bytes)
    // The active session was replaced by one without a key.
    | Unkeyed
    // A pairing replaced the device's stored session by one with this peer, whether or not the file could be written.
    | Replaced(deviceId: string, peer: Bytes)
    // The radio took our public key, sent after a pairing or as a greeting.
    | Offered(deviceId: string, ours: Bytes)
    // A packet was handed to the radio, which took it or not.
    | Sent(payload: EncryptedData, packet: DataPacket, delivered: bool)

  datatype Service = Service(
    ctx: Context,
    deviceId: Option<string>,
    running: bool,
    stopped: bool,
    app: AppState,
    serial: seq<string>,
    plain: seq<string>,
    log: seq<Entry>)

  datatype Response =
    | Keepalive | PeerUnknown | PeerKnown | UnknownResponse
    | Challenge(data: Bytes, firmware: string)
    | SerialData(text: string)

  /** Everything the outside world decides during one step. */
  datatype World = World(
    scanned: Option<seq<Device>>,
    mac: Option<string>,
    subscribed: bool,
    secret: Scalar,
    disk: WriteOutcome,
    nonce: nat -> Nonce,
    radio: nat -> bool)

  /** The atomic steps: a notification, an input event, a command, or another task publishing the shared state. */
  datatype Step =
    | Notify(response: Response)
    | Input(event: InputEvent, w: World)
    | Command(cmd: AppCommand, w: World)
    | Publish(app: AppState)

  /** The entry for one payload, if it could be encrypted. */
  function SendNow(f: Suite, c: Context, payload: EncryptedData, w: World, i: nat): seq<Entry> {
    match Encrypt(f, c, f.encodePayload(payload), w.nonce(i))
    case Failure(_) => []
    case Success(blob) => [Sent(payload, MakePacket(blob), w.radio(i))]
  }

  /** The packets sent for some payloads, up to the first that fails. */
  function SendAll(f: Suite, c: Context, payloads: seq<EncryptedData>, w: World, i: nat): seq<Entry>
    decreases |payloads|
  {
    if payloads == [] then []
    else
      var now := SendNow(f, c, payloads[0], w, i);
      if now == [] || !w.radio(i) then now else now + SendAll(f, c, payloads[1..], w, i + 1)
  }

  function SetConnected(app: AppState, auth: AuthState, firmware: string): AppState
    requires app.connectedDevice.Some?
  {
    app.(connectedDevice := Some(app.connectedDevice.value.(state := Connected(auth, firmware))))
  }

  function FirmwareOf(d: Device): string {
    match d.state
    case Connected(_, firmware) => firmware
    case Disconnected => "Unknown"
  }

  const AUTHENTICATED: AuthState := Authenticated("N/A", "N/A")

  /** Loads the device's keys for the challenge. The state becomes "authenticated" whether or not that worked, and
      the task dies if the shared state holds no connected device. */
  function OnChallenge(f: Suite, s: Service, id: string, data: Bytes, firmware: string): Service {
    var entries := match Stored(f, s.ctx, id)
                   case Failure(_) => []
                   case Success(r) => if DerivedKey(f, r, Salt(data)).Some? then [Keyed(id, r, data)] else [Unkeyed];
    var t := s.(ctx := LoadKeys(f, s.ctx, id, data), log := s.log + entries);
    if s.app.connectedDevice.None? then t.(stopped := true)
    else t.(app := SetConnected(s.app, AUTHENTICATED, firmware))
  }

  function OnResponse(f: Suite, s: Service, id: string, r: Response): Service {
    match r
    case Keepalive => s
    case UnknownResponse => s
    case PeerUnknown =>
      if s.app.connectedDevice.None? then s
      else s.(app := SetConnected(s.app, AuthenticationFailed, FirmwareOf(s.app.connectedDevice.value)))
    case PeerKnown => s.(stopped := true)
    case Challenge(data, firmware) => OnChallenge(f, s, id, data, firmware)
    case SerialData(text) => if text == "" then s else s.(serial := s.serial + [text])
  }

  /** What a pairing with a decompressible key does to the sessions and, if the radio takes it, offers. */
  function PairEntries(id: string, peer: Bytes, r: Result<Bytes, CryptoError>, radio: bool): seq<Entry> {
    match r
    case Success(ours) => [Unkeyed, Replaced(id, peer)] + if radio then [Offered(id, ours)] else []
    case Failure(e) => if e == StorageFailed(WriteFailed) then [Unkeyed, Replaced(id, peer)] else [Unkeyed]
  }

  function OnPair(f: Suite, s: Service, id: string, pubKey: string, w: World): Service {
    match f.decode64(pubKey)
    case None => s
    case Some(peer) =>
      if |peer| != COMPRESSED_KEY_SIZE || f.decompress(peer).None? then s
      else
        var r := PairResult(f, s.ctx, peer, id, w.secret, w.nonce(0), w.disk);
        s.(ctx := Pair(f, s.ctx, peer, id, w.secret, w.nonce(0), w.disk),
           plain := s.plain + if r.Success? && w.radio(0) then [f.encode64(r.value)] else [],
           log := s.log + PairEntries(id, peer, r, w.radio(0)))
  }

  function OnConnect(f: Suite, s: Service, device: Device, w: World): Service {
    match w.mac
    case None => s
    case Some(mac) =>
      var greeting := Stored(f, s.ctx, mac);
      var greeted := greeting.Success? && w.radio(0);
      s.(deviceId := Some(mac),
         plain := s.plain + (if greeted then [f.encode64(greeting.value.publicKey)] else []),
         log := s.log + (if greeted then [Offered(mac, greeting.value.publicKey)] else []),
         app := s.app.(connectedDevice := Some(device.(state := Connected(NotAuthenticated, "Unknown")))),
         running := w.subscribed)
  }

  function CommandPayloads(cmd: AppCommand): seq<EncryptedData> {
    match cmd
    case SendKeyboardInput(text) => [CreateKeyboardPacket(text)]
    case SendMouseJiggle(enable) => [CreateMouseJigglePacket(enable)]
    case _ => []
  }

  /** Connecting and scanning are only possible before the session loop is entered, pairing only within it. */
  function OnCommand(f: Suite, s: Service, cmd: AppCommand, w: World): Service {
    match cmd
    case KillService => s.(stopped := true)
    case ScanForDevices =>
      if s.running || w.scanned.None? then s else s.(app := s.app.(devices := w.scanned.value))
    case ConnectToDevice(device) => if s.running then s else OnConnect(f, s, device, w)
    case PairDevice(_, pubKey) =>
      if s.running && s.deviceId.Some? then OnPair(f, s, s.deviceId.value, pubKey, w) else s
    case _ => s.(log := s.log + SendAll(f, s.ctx, CommandPayloads(cmd), w, 0))
  }

  function Next(f: Suite, s: Service, step: Step): Service {
    if s.stopped then s
    else
      match step
      case Publish(app) => s.(app := app)
      case Notify(r) => if s.running && s.deviceId.Some? then OnResponse(f, s, s.deviceId.value, r) else s
      case Input(e, w) =>
        if s.running then s.(log := s.log + SendAll(f, s.ctx, PayloadsOf(e), w, 0)) else s
      case Command(cmd, w) => OnCommand(f, s, cmd, w)
  }

  function Run(f: Suite, s: Service, steps: seq<Step>): Service
    decreases |steps|
  {
    if steps == [] then s else Run(f, Next(f, s, steps[0]), steps[1..])
  }

  function Start(store: Store, app: AppState): Service {
    Service(Context(None, store), None, false, false, app, [], [], [])
  }

  // ---- Which key seals what -----------------------------------------------

  /** The last entry that gave the active session a key or took it away. */
  function LastChange(log: seq<Entry>): Option<Entry> {
    if log == [] then None
    else if Last(log).Keyed? || Last(log).Unkeyed? then Some(Last(log))
    else LastChange(DropLast(log))
  }

  /** The peer of the last pairing that replaced the device's stored session. */
  function PeerOf(log: seq<Entry>, id: string): Option<Bytes> {
    if log == [] then None
    else if Last(log).Replaced? && Last(log).deviceId == id then Some(Last(log).peer)
    else PeerOf(DropLast(log), id)
  }

  /** The public key the device took last, unless a pairing has replaced its session since. */
  function KeyOffered(log: seq<Entry>, id: string): Option<Bytes> {
    if log == [] then None
    else if Last(log).Offered? && Last(log).deviceId == id then Some(Last(log).ours)
    else if Last(log).Replaced? && Last(log).deviceId == id then None
    else KeyOffered(DropLast(log), id)
  }

  ghost predicate SealedUnder(f: Suite, key: Bytes, payload: EncryptedData, packet: DataPacket) {
    exists nonce: Nonce ::
      f.seal(key, nonce, f.encodePayload(payload)).Some?
      && packet.iv + packet.encryptedData + packet.tag == nonce + f.seal(key, nonce, f.encodePayload(payload)).value
      && |packet.iv| == NONCE_SIZE && |packet.tag| == TAG_SIZE
      && |packet.encryptedData| == |f.encodePayload(payload)|
      && packet.dataLen == AsU32(|f.encodePayload(payload)|)
  }

  /** The packet is sealed under the key that HKDF-SHA256 (sections 2.2 and 2.3 of RFC 5869) derives from the secret
      agreed in the stored session of the device the task runs for, with the challenge that last gave it a key as
      salt, and no pairing since. */
  ghost predicate Authorised(f: Suite, deviceId: Option<string>, before: seq<Entry>, e: Entry)
    requires e.Sent?
  {
    match LastChange(before)
    case Some(Keyed(id, r, challenge)) =>
      && deviceId == Some(id)
      && f.diffieHellman(r.privateKey, r.peerKey).Some?
      && var secret := f.diffieHellman(r.privateKey, r.peerKey).value;
         SealedUnder(f, f.hkdf(if challenge == [] then None else Some(challenge), secret, "aes-gcm-256"),
                     e.payload, e.packet)
    case _ => false
  }

  /** What the log knows of the device's stored session is true of this one. */
  ghost predicate RecordMatches(f: Suite, log: seq<Entry>, id: string, r: SessionRecord) {
    && (PeerOf(log, id).Some? ==> f.decompress(PeerOf(log, id).value) == Some(r.peerKey) && HalvesMatch(f, r))
    && (KeyOffered(log, id).Some? ==> KeyOffered(log, id).value == r.publicKey)
  }

  /** The session that was keyed last is the one the log tells of. */
  ghost predicate KeyedRecordMatches(f: Suite, log: seq<Entry>) {
    match LastChange(log)
    case Some(Keyed(id, r, _)) => RecordMatches(f, log, id, r)
    case _ => true
  }

  ghost predicate EntryOk(f: Suite, deviceId: Option<string>, log: seq<Entry>, i: nat)
    requires i < |log|
  {
    log[i].Sent? ==> Authorised(f, deviceId, log[..i], log[i]) && KeyedRecordMatches(f, log[..i])
  }

  /** The active session is what the log says it is. */
  ghost predicate SessionMatchesLog(f: Suite, s: Service) {
    match LastChange(s.log)
    case Some(Keyed(id, r, challenge)) =>
      && s.running && s.deviceId == Some(id)
      && DerivedKey(f, r, Salt(challenge)).Some?
      && s.ctx.active == Some(Session(r, DerivedKey(f, r, Salt(challenge))))
      && Stored(f, s.ctx, id) == Success(r)
    case _ => s.ctx.active.None? || s.ctx.active.value.aesKey.None?
  }

  ghost predicate StoreMatchesLog(f: Suite, s: Service, id: string) {
    PeerOf(s.log, id).Some? || KeyOffered(s.log, id).Some? ==>
      Stored(f, s.ctx, id).Success? && RecordMatches(f, s.log, id, Stored(f, s.ctx, id).value)
  }

  ghost predicate Inv(f: Suite, s: Service) {
    && SessionMatchesLog(f, s)
    && (forall id: string :: StoreMatchesLog(f, s, id))
    && (!s.running ==> forall i :: 0 <= i < |s.log| ==> !s.log[i].Sent?)
    && forall i :: 0 <= i < |s.log| ==> EntryOk(f, s.deviceId, s.log, i)
  }

  lemma {:induction false} SentChangesNothing(log: seq<Entry>, sent: seq<Entry>)
    requires forall e :: e in sent ==> e.Sent?
    ensures LastChange(log + sent) == LastChange(log)
    ensures forall id :: PeerOf(log + sent, id) == PeerOf(log, id)
    ensures forall id :: KeyOffered(log + sent, id) == KeyOffered(log, id)
    decreases |sent|
  {
    if sent == [] {
      assert log + sent == log;
    } else {
      assert DropLast(log + sent) == log + DropLast(sent) && Last(log + sent) == Last(sent);
      assert forall e :: e in DropLast(sent) ==> e in sent;
      assert Last(sent) in sent;
      SentChangesNothing(log, DropLast(sent));
    }
  }

  /** Entries already in the log are judged by what came before them, which never changes. */
  lemma AppendKeepsEntries(f: Suite, s: Service, more: seq<Entry>)
    requires forall i :: 0 <= i < |s.log| ==> EntryOk(f, s.deviceId, s.log, i)
    ensures forall i :: 0 <= i < |s.log| ==> EntryOk(f, s.deviceId, s.log + more, i)
  {
    forall i | 0 <= i < |s.log|
      ensures EntryOk(f, s.deviceId, s.log + more, i)
    {
      assert EntryOk(f, s.deviceId, s.log, i);
      assert (s.log + more)[..i] == s.log[..i] && (s.log + more)[i] == s.log[i];
    }
  }

  /** One packet sent under the key of the moment is authorised. */
  lemma SealedPacketIsOk(f: Suite, s: Service, e: Entry, nonce: Nonce)
    requires Inv(f, s) && e.Sent?
    requires Encrypt(f, s.ctx, f.encodePayload(e.payload), nonce).Success?
    requires e.packet == MakePacket(Encrypt(f, s.ctx, f.encodePayload(e.payload), nonce).value)
    ensures s.running && Authorised(f, s.deviceId, s.log, e) && KeyedRecordMatches(f, s.log)
  {
    assert IsLawful(f);
    var key, data := s.ctx.active.value.aesKey.value, f.encodePayload(e.payload);
    var p := e.packet;
    assert p.iv + p.encryptedData + p.tag == nonce + f.seal(key, nonce, data).value;
    assert SealedUnder(f, key, e.payload, p);
    assert StoreMatchesLog(f, s, LastChange(s.log).value.deviceId);
  }

  lemma OneMoreSent(f: Suite, s: Service, e: Entry)
    requires Inv(f, s) && s.running && e.Sent?
    requires Authorised(f, s.deviceId, s.log, e) && KeyedRecordMatches(f, s.log)
    ensures Inv(f, s.(log := s.log + [e]))
  {
    var t := s.(log := s.log + [e]);
    AppendKeepsEntries(f, s, [e]);
    assert t.log[..|s.log|] == s.log && t.log[|s.log|] == e;
    SentChangesNothing(s.log, [e]);
    forall id: string
      ensures StoreMatchesLog(f, t, id)
    {
      assert StoreMatchesLog(f, s, id);
    }
  }

  lemma FirstPacketKeepsInv(f: Suite, s: Service, payload: EncryptedData, nonce: Nonce, delivered: bool)
    requires Inv(f, s)
    requires Encrypt(f, s.ctx, f.encodePayload(payload), nonce).Success?
    ensures var sent := Sent(payload, MakePacket(Encrypt(f, s.ctx, f.encodePayload(payload), nonce).value), delivered);
            Inv(f, s.(log := s.log + [sent]))
  {
    var sent := Sent(payload, MakePacket(Encrypt(f, s.ctx, f.encodePayload(payload), nonce).value), delivered);
    SealedPacketIsOk(f, s, sent, nonce);
    OneMoreSent(f, s, sent);
  }

  lemma {:induction false} SendingKeepsInv(f: Suite, s: Service, payloads: seq<EncryptedData>, w: World, i: nat)
    requires Inv(f, s)
    ensures Inv(f, s.(log := s.log + SendAll(f, s.ctx, payloads, w, i)))
    decreases |payloads|
  {
    var sent := SendAll(f, s.ctx, payloads, w, i);
    if sent == [] {
      assert s.log + sent == s.log;
    } else {
      FirstPacketKeepsInv(f, s, payloads[0], w.nonce(i), w.radio(i));
      var t := s.(log := s.log + [sent[0]]);
      if w.radio(i) {
        SendingKeepsInv(f, t, payloads[1..], w, i + 1);
        Regroup(s.log, [sent[0]], SendAll(f, s.ctx, payloads[1..], w, i + 1));
      } else {
        assert sent == [sent[0]];
      }
    }
  }

  /** A step that sends nothing and says what it does to the sessions keeps the invariant. */
  lemma ChangeKeepsInv(f: Suite, s: Service, t: Service, entries: seq<Entry>)
    requires Inv(f, s) && t.log == s.log + entries && forall e :: e in entries ==> !e.Sent?
    requires if s.running then t.running && t.deviceId == s.deviceId
             else forall e :: e in entries ==> e.Offered?
    requires SessionMatchesLog(f, t) && forall id: string :: StoreMatchesLog(f, t, id)
    ensures Inv(f, t)
  {
    assert forall i :: |s.log| <= i < |t.log| ==> t.log[i] == entries[i - |s.log|] && !t.log[i].Sent?;
    assert forall i :: 0 <= i < |s.log| ==> t.log[i] == s.log[i];
    AppendKeepsEntries(f, s, entries);
    assert forall i :: 0 <= i < |t.log| ==> EntryOk(f, t.deviceId, t.log, i);
  }

  lemma KeyChangeIsNoOffer(log: seq<Entry>, e: Entry, id: string)
    requires e.Keyed? || e.Unkeyed?
    ensures LastChange(log + [e]) == Some(e)
    ensures PeerOf(log + [e], id) == PeerOf(log, id) && KeyOffered(log + [e], id) == KeyOffered(log, id)
  {
    assert DropLast(log + [e]) == log;
  }

  lemma ChallengeKeepsInv(f: Suite, s: Service, id: string, data: Bytes, firmware: string)
    requires Inv(f, s) && s.running && s.deviceId == Some(id)
    ensures Inv(f, OnChallenge(f, s, id, data, firmware))
  {
    var t := OnChallenge(f, s, id, data, firmware);
    StoredIgnoresActive(f, s.ctx, t.ctx);
    if Stored(f, s.ctx, id).Success? {
      var r := Stored(f, s.ctx, id).value;
      var e := if DerivedKey(f, r, Salt(data)).Some? then Keyed(id, r, data) else Unkeyed;
      assert t.log == s.log + [e];
      forall d: string
        ensures StoreMatchesLog(f, t, d)
      {
        KeyChangeIsNoOffer(s.log, e, d);
        assert StoreMatchesLog(f, s, d);
      }
      KeyChangeIsNoOffer(s.log, e, id);
      ChangeKeepsInv(f, s, t, [e]);
    } else {
      assert t.log == s.log;
      forall d: string
        ensures StoreMatchesLog(f, t, d)
      {
        assert StoreMatchesLog(f, s, d);
      }
    }
  }

  lemma OfferTells(log: seq<Entry>, id: string, ours: Bytes, d: string)
    ensures var longer := log + [Offered(id, ours)];
            && LastChange(longer) == LastChange(log) && PeerOf(longer, d) == PeerOf(log, d)
            && KeyOffered(longer, d) == if d == id then Some(ours) else KeyOffered(log, d)
  {
    assert DropLast(log + [Offered(id, ours)]) == log;
  }

  lemma ReplacedTells(log: seq<Entry>, id: string, peer: Bytes, d: string)
    ensures var longer := log + [Replaced(id, peer)];
            && LastChange(longer) == LastChange(log)
            && PeerOf(longer, d) == (if d == id then Some(peer) else PeerOf(log, d))
            && KeyOffered(longer, d) == (if d == id then None else KeyOffered(log, d))
  {
    assert DropLast(log + [Replaced(id, peer)]) == log;
  }

  /** What the log knows after a pairing. */
  lemma PairingTells(log: seq<Entry>, id: string, peer: Bytes, r: Result<Bytes, CryptoError>, radio: bool, d: string)
    ensures var longer := log + PairEntries(id, peer, r, radio);
            var replaced := r.Success? || r.error == StorageFailed(WriteFailed);
            && LastChange(longer) == Some(Unkeyed)
            && PeerOf(longer, d) == (if replaced && d == id then Some(peer) else PeerOf(log, d))
            && KeyOffered(longer, d) == if !replaced || d != id then KeyOffered(log, d)
                                        else if r.Success? && radio then Some(r.value) else None
  {
    var longer, l1 := log + PairEntries(id, peer, r, radio), log + [Unkeyed];
    var l2 := l1 + [Replaced(id, peer)];
    KeyChangeIsNoOffer(log, Unkeyed, d);
    ReplacedTells(l1, id, peer, d);
    match r
    case Success(ours) =>
      if radio {
        OfferTells(l2, id, ours, d);
        assert longer == l2 + [Offered(id, ours)];
      } else {
        assert longer == l2;
      }
    case Failure(e) =>
      assert longer == if e == StorageFailed(WriteFailed) then l2 else l1;
  }

  lemma PairKeepsInv(f: Suite, s: Service, id: string, pubKey: string, w: World)
    requires Inv(f, s) && s.running && s.deviceId == Some(id)
    ensures Inv(f, OnPair(f, s, id, pubKey, w))
  {
    if f.decode64(pubKey).Some? {
      var peer := f.decode64(pubKey).value;
      if |peer| == COMPRESSED_KEY_SIZE && f.decompress(peer).Some? {
        var t := OnPair(f, s, id, pubKey, w);
        var r := PairResult(f, s.ctx, peer, id, w.secret, w.nonce(0), w.disk);
        PairingTells(s.log, id, peer, r, w.radio(0), id);
        PairedSessionHasNoKey(f, s.ctx, id, peer, w);
        forall d: string
          ensures StoreMatchesLog(f, t, d)
        {
          PairedStoreMatches(f, s, id, pubKey, w, d);
        }
        ChangeKeepsInv(f, s, t, PairEntries(id, peer, r, w.radio(0)));
      }
    }
  }

  lemma PairedSessionHasNoKey(f: Suite, c: Context, id: string, peer: Bytes, w: World)
    requires f.decompress(peer).Some?
    ensures var active := Pair(f, c, peer, id, w.secret, w.nonce(0), w.disk).active;
            active.Some? && active.value.aesKey.None?
  {
    SaveStores(f, Generate(f, c, id, f.decompress(peer).value, w.secret), w.nonce(0), w.disk, id);
  }

  lemma PairedStoreMatches(f: Suite, s: Service, id: string, pubKey: string, w: World, d: string)
    requires f.decode64(pubKey).Some? && |f.decode64(pubKey).value| == COMPRESSED_KEY_SIZE
    requires f.decompress(f.decode64(pubKey).value).Some?
    requires StoreMatchesLog(f, s, d)
    ensures StoreMatchesLog(f, OnPair(f, s, id, pubKey, w), d)
  {
    var peer := f.decode64(pubKey).value;
    var g := Generate(f, s.ctx, id, f.decompress(peer).value, w.secret);
    PairingTells(s.log, id, peer, PairResult(f, s.ctx, peer, id, w.secret, w.nonce(0), w.disk), w.radio(0), d);
    SaveStores(f, g, w.nonce(0), w.disk, d);
    FailedSaveKeepsStore(f, g, w.nonce(0), w.disk);
    StoredIgnoresActive(f, s.ctx, g);
  }

  lemma FailedSaveKeepsStore(f: Suite, c: Context, nonce: Nonce, w: WriteOutcome)
    ensures SaveResult(f, c, nonce, w).Success? || SaveResult(f, c, nonce, w).error == StorageFailed(WriteFailed)
         || Save(f, c, nonce, w) == c
  {
  }

  lemma ConnectKeepsInv(f: Suite, s: Service, device: Device, w: World)
    requires Inv(f, s) && !s.running
    ensures Inv(f, OnConnect(f, s, device, w))
  {
    if w.mac.Some? {
      var mac, t := w.mac.value, OnConnect(f, s, device, w);
      var greeting := Stored(f, s.ctx, mac);
      if greeting.Success? && w.radio(0) {
        var ours := greeting.value.publicKey;
        forall d: string
          ensures StoreMatchesLog(f, t, d)
        {
          OfferTells(s.log, mac, ours, d);
          assert StoreMatchesLog(f, s, d);
        }
        OfferTells(s.log, mac, ours, mac);
        ChangeKeepsInv(f, s, t, [Offered(mac, ours)]);
      } else {
        assert t.log == s.log;
        forall d: string
          ensures StoreMatchesLog(f, t, d)
        {
          assert StoreMatchesLog(f, s, d);
        }
        ChangeKeepsInv(f, s, t, []);
      }
    }
  }

  /** Other fields of the service do not matter. */
  lemma OtherFieldsKeepInv(f: Suite, s: Service, t: Service)
    requires Inv(f, s) && t.ctx == s.ctx && t.deviceId == s.deviceId && t.running == s.running && t.log == s.log
    ensures Inv(f, t)
  {
    forall id: string
      ensures StoreMatchesLog(f, t, id)
    {
      assert StoreMatchesLog(f, s, id);
    }
  }

  lemma CommandKeepsInv(f: Suite, s: Service, cmd: AppCommand, w: World)
    requires Inv(f, s)
    ensures Inv(f, OnCommand(f, s, cmd, w))
  {
    match cmd
    case PairDevice(_, pubKey) =>
      if s.running && s.deviceId.Some? {
        PairKeepsInv(f, s, s.deviceId.value, pubKey, w);
      }
    case ConnectToDevice(device) =>
      if !s.running {
        ConnectKeepsInv(f, s, device, w);
      }
    case KillService => OtherFieldsKeepInv(f, s, OnCommand(f, s, cmd, w));
    case ScanForDevices => OtherFieldsKeepInv(f, s, OnCommand(f, s, cmd, w));
    case _ => SendingKeepsInv(f, s, CommandPayloads(cmd), w, 0);
  }

  lemma NotificationKeepsInv(f: Suite, s: Service, id: string, r: Response)
    requires Inv(f, s) && s.running && s.deviceId == Some(id)
    ensures Inv(f, OnResponse(f, s, id, r))
  {
    if r.Challenge? {
      ChallengeKeepsInv(f, s, id, r.data, r.firmware);
    } else {
      OtherFieldsKeepInv(f, s, OnResponse(f, s, id, r));
    }
  }

  lemma StepKeepsInv(f: Suite, s: Service, step: Step)
    requires Inv(f, s)
    ensures Inv(f, Next(f, s, step))
  {
    if !s.stopped {
      match step
      case Publish(app) => OtherFieldsKeepInv(f, s, s.(app := app));
      case Input(e, w) => SendingKeepsInv(f, s, PayloadsOf(e), w, 0);
      case Notify(r) =>
        if s.running && s.deviceId.Some? {
          NotificationKeepsInv(f, s, s.deviceId.value, r);
        }
      case Command(cmd, w) => CommandKeepsInv(f, s, cmd, w);
    }
  }

  lemma {:induction false} RunKeepsInv(f: Suite, s: Service, steps: seq<Step>)
    requires Inv(f, s)
    ensures Inv(f, Run(f, s, steps))
    decreases |steps|
  {
    if steps != [] {
      StepKeepsInv(f, s, steps[0]);
      RunKeepsInv(f, Next(f, s, steps[0]), steps[1..]);
    }
  }

  // ---- Main results -------------------------------------------------------

  /** Over the whole life of the task, whatever devices, notifications, input and commands arrive, every packet handed
      to the radio is sealed under the key derived from the connected device's stored session and the last
      challenge that keyed it; there was such a challenge, and no pairing came after it. */
  lemma EveryPacketIsAuthorised(f: Suite, store: Store, app: AppState, steps: seq<Step>, i: nat)
    requires i < |Run(f, Start(store, app), steps).log| && Run(f, Start(store, app), steps).log[i].Sent?
    ensures var end := Run(f, Start(store, app), steps);
            Authorised(f, end.deviceId, end.log[..i], end.log[i])
  {
    RunKeepsInv(f, Start(store, app), steps);
    assert EntryOk(f, Run(f, Start(store, app), steps).deviceId, Run(f, Start(store, app), steps).log, i);
  }

  /** A peer holding private key `b` derives its key from our public key `ours` and the challenge (sections 2.2 and
      2.3 of RFC 5869), opens the packet, and finds the payload. */
  ghost predicate Opens(f: Suite, b: Scalar, ours: Bytes, challenge: Bytes, e: Entry)
    requires e.Sent?
  {
    && f.diffieHellman(b, ours).Some? && |e.packet.iv| == NONCE_SIZE
    && f.open(f.hkdf(if challenge == [] then None else Some(challenge), f.diffieHellman(b, ours).value, "aes-gcm-256"),
              e.packet.iv, e.packet.encryptedData + e.packet.tag) == Some(f.encodePayload(e.payload))
  }

  /** The peer of the keyed session opens the packet with that session's public key, and with the key
      the device last took if there is one. */
  ghost predicate PeerOpens(f: Suite, before: seq<Entry>, e: Entry, b: Scalar)
    requires e.Sent?
  {
    match LastChange(before)
    case Some(Keyed(id, r, challenge)) =>
      f.publicKey(b) == r.peerKey ==>
        && Opens(f, b, r.publicKey, challenge, e)
        && (KeyOffered(before, id).Some? ==> Opens(f, b, KeyOffered(before, id).value, challenge, e))
    case _ => false
  }

  lemma AuthorisedOpens(f: Suite, deviceId: Option<string>, before: seq<Entry>, e: Entry, b: Scalar)
    requires e.Sent? && Authorised(f, deviceId, before, e) && KeyedRecordMatches(f, before)
    requires HalvesMatch(f, LastChange(before).value.record)
    ensures PeerOpens(f, before, e, b)
  {
    assert IsLawful(f);
    var r, challenge := LastChange(before).value.record, LastChange(before).value.challenge;
    if f.publicKey(b) == r.peerKey {
      var key, data := DerivedKey(f, r, Salt(challenge)).value, f.encodePayload(e.payload);
      var nonce: Nonce :| f.seal(key, nonce, data).Some?
        && e.packet.iv + e.packet.encryptedData + e.packet.tag == nonce + f.seal(key, nonce, data).value;
      assert f.diffieHellman(b, f.publicKey(r.privateKey)) == f.diffieHellman(r.privateKey, f.publicKey(b));
      SamePrefix(e.packet.iv, e.packet.encryptedData, e.packet.tag, nonce, f.seal(key, nonce, data).value);
    }
  }

  lemma SamePrefix(a: Bytes, b: Bytes, c: Bytes, n: Bytes, m: Bytes)
    requires a + b + c == n + m && |a| == |n|
    ensures a == n && b + c == m
  {
    assert a == (a + b + c)[..|a|] == (n + m)[..|a|];
    assert b + c == (a + b + c)[|a|..] == (n + m)[|a|..];
  }

  /** Every session that was ever keyed is its device's own and has matching halves. */
  ghost predicate KeyedSound(f: Suite, log: seq<Entry>) {
    forall e :: e in log && e.Keyed? ==> e.record.deviceId == e.deviceId && HalvesMatch(f, e.record)
  }

  lemma {:induction false} LastChangeIsLogged(log: seq<Entry>)
    ensures LastChange(log).Some? ==> LastChange(log).value in log
  {
    if log != [] && !Last(log).Keyed? && !Last(log).Unkeyed? {
      LastChangeIsLogged(DropLast(log));
    }
  }

  lemma {:induction false} SendAllSends(f: Suite, c: Context, payloads: seq<EncryptedData>, w: World, i: nat)
    ensures forall e :: e in SendAll(f, c, payloads, w, i) ==> e.Sent? && e.payload in payloads
    decreases |payloads|
  {
    if payloads != [] {
      SendAllSends(f, c, payloads[1..], w, i + 1);
    }
  }

  lemma ChallengeKeepsSound(f: Suite, s: Service, id: string, data: Bytes, firmware: string)
    requires Sound(f, s.ctx) && KeyedSound(f, s.log)
    ensures Sound(f, OnChallenge(f, s, id, data, firmware).ctx)
    ensures KeyedSound(f, OnChallenge(f, s, id, data, firmware).log)
  {
    ApplyKeepsSound(f, s.ctx, LoadOp(id, data));
  }

  lemma PairKeepsSound(f: Suite, s: Service, id: string, pubKey: string, w: World)
    requires Sound(f, s.ctx) && KeyedSound(f, s.log)
    ensures Sound(f, OnPair(f, s, id, pubKey, w).ctx) && KeyedSound(f, OnPair(f, s, id, pubKey, w).log)
  {
    if f.decode64(pubKey).Some? {
      ApplyKeepsSound(f, s.ctx, PairOp(f.decode64(pubKey).value, id, w.secret, w.nonce(0), w.disk));
    }
  }

  lemma CommandKeepsSound(f: Suite, s: Service, cmd: AppCommand, w: World)
    requires Sound(f, s.ctx) && KeyedSound(f, s.log)
    ensures Sound(f, OnCommand(f, s, cmd, w).ctx) && KeyedSound(f, OnCommand(f, s, cmd, w).log)
  {
    if cmd.PairDevice? {
      if s.running && s.deviceId.Some? {
        PairKeepsSound(f, s, s.deviceId.value, cmd.pubKey, w);
      }
    } else {
      SendAllSends(f, s.ctx, CommandPayloads(cmd), w, 0);
    }
  }

  lemma StepKeepsSound(f: Suite, s: Service, step: Step)
    requires Sound(f, s.ctx) && KeyedSound(f, s.log)
    ensures Sound(f, Next(f, s, step).ctx) && KeyedSound(f, Next(f, s, step).log)
  {
    match step
    case Publish(_) =>
    case Input(e, w) => SendAllSends(f, s.ctx, PayloadsOf(e), w, 0);
    case Notify(r) =>
      if s.deviceId.Some? && r.Challenge? {
        ChallengeKeepsSound(f, s, s.deviceId.value, r.data, r.firmware);
      }
    case Command(cmd, w) => CommandKeepsSound(f, s, cmd, w);
  }

  lemma {:induction false} RunKeepsSound(f: Suite, s: Service, steps: seq<Step>)
    requires Sound(f, s.ctx) && KeyedSound(f, s.log)
    ensures Sound(f, Run(f, s, steps).ctx) && KeyedSound(f, Run(f, s, steps).log)
    decreases |steps|
  {
    if steps != [] {
      StepKeepsSound(f, s, steps[0]);
      RunKeepsSound(f, Next(f, s, steps[0]), steps[1..]);
    }
  }

  /** Over the whole life of the task, starting from any store whose sessions are sound, whether the device was
      paired in this life of the task or before it: the peer of the connected device's session opens every
      packet and finds the payload. */
  lemma PeerOpensEveryPacket(f: Suite, store: Store, app: AppState, steps: seq<Step>, i: nat, b: Scalar)
    requires Sound(f, Context(None, store))
    requires i < |Run(f, Start(store, app), steps).log| && Run(f, Start(store, app), steps).log[i].Sent?
    ensures var end := Run(f, Start(store, app), steps);
            PeerOpens(f, end.log[..i], end.log[i], b)
  {
    var end := Run(f, Start(store, app), steps);
    RunKeepsInv(f, Start(store, app), steps);
    RunKeepsSound(f, Start(store, app), steps);
    assert EntryOk(f, end.deviceId, end.log, i);
    LastChangeIsLogged(end.log[..i]);
    assert LastChange(end.log[..i]).value in end.log;
    AuthorisedOpens(f, end.deviceId, end.log[..i], end.log[i], b);
  }

  /** Whatever the store held at first, the packets for a device paired since then are for the peer whose compressed
      key was given, and that peer opens them. */
  lemma PairedPeerOpensEveryPacket(f: Suite, store: Store, app: AppState, steps: seq<Step>, i: nat, b: Scalar,
                                   id: string, peer: Bytes)
    requires i < |Run(f, Start(store, app), steps).log| && Run(f, Start(store, app), steps).log[i].Sent?
    requires Run(f, Start(store, app), steps).deviceId == Some(id)
    requires PeerOf(Run(f, Start(store, app), steps).log[..i], id) == Some(peer)
    requires f.decompress(peer) == Some(f.publicKey(b))
    ensures var end := Run(f, Start(store, app), steps);
            var change := LastChange(end.log[..i]);
            && change.Some? && change.value.Keyed? && change.value.record.peerKey == f.publicKey(b)
            && PeerOpens(f, end.log[..i], end.log[i], b)
  {
    var end := Run(f, Start(store, app), steps);
    RunKeepsInv(f, Start(store, app), steps);
    assert EntryOk(f, end.deviceId, end.log, i);
    AuthorisedOpens(f, end.deviceId, end.log[..i], end.log[i], b);
  }

  /** In every reachable state a payload leads to a packet exactly when the last change of the session was a
      challenge that keyed it, so none before the first and none between a pairing and the next, and the
      sealing succeeds. */
  lemma PacketExactlyWhenKeyed(f: Suite, store: Store, app: AppState, steps: seq<Step>, payload: EncryptedData,
                               w: World, i: nat)
    ensures var s := Run(f, Start(store, app), steps);
            SendNow(f, s.ctx, payload, w, i) != [] <==>
              (match LastChange(s.log)
               case Some(Keyed(_, r, challenge)) =>
                 f.diffieHellman(r.privateKey, r.peerKey).Some? &&
                 var secret := f.diffieHellman(r.privateKey, r.peerKey).value;
                 f.seal(f.hkdf(if challenge == [] then None else Some(challenge), secret, "aes-gcm-256"),
                        w.nonce(i), f.encodePayload(payload)).Some?
               case _ => false)
  {
    RunKeepsInv(f, Start(store, app), steps);
  }

  // ---- What is sent in the clear ------------------------------------------

  /** The texts of the public keys that were offered, in order. */
  function Offers(f: Functions, log: seq<Entry>): seq<string> {
    if log == [] then []
    else Offers(f, DropLast(log)) + if Last(log).Offered? then [f.encode64(Last(log).ours)] else []
  }

  lemma {:induction false} OffersAppend(f: Functions, a: seq<Entry>, b: seq<Entry>)
    ensures Offers(f, a + b) == Offers(f, a) + Offers(f, b)
    decreases |b|
  {
    if b == [] {
      assert a + b == a;
    } else {
      assert DropLast(a + b) == a + DropLast(b) && Last(a + b) == Last(b);
      OffersAppend(f, a, DropLast(b));
    }
  }

  lemma {:induction false} NoOffers(f: Functions, log: seq<Entry>)
    requires forall e :: e in log ==> !e.Offered?
    ensures Offers(f, log) == []
  {
    if log != [] {
      assert Last(log) in log && forall e :: e in DropLast(log) ==> e in log;
      NoOffers(f, DropLast(log));
    }
  }

  lemma OffersOne(f: Functions, e: Entry)
    ensures Offers(f, [e]) == if e.Offered? then [f.encode64(e.ours)] else []
  {
    assert DropLast([e]) == [];
  }

  lemma SendingIsNotPlain(f: Suite, s: Service, payloads: seq<EncryptedData>, w: World)
    ensures Offers(f, s.log + SendAll(f, s.ctx, payloads, w, 0)) == Offers(f, s.log)
  {
    SendAllSends(f, s.ctx, payloads, w, 0);
    NoOffers(f, SendAll(f, s.ctx, payloads, w, 0));
    OffersAppend(f, s.log, SendAll(f, s.ctx, payloads, w, 0));
  }

  lemma PairingIsPlain(f: Suite, id: string, peer: Bytes, r: Result<Bytes, CryptoError>, radio: bool)
    ensures Offers(f, PairEntries(id, peer, r, radio))
         == if r.Success? && radio then [f.encode64(r.value)] else []
  {
    if r.Success? && radio {
      OffersAppend(f, [Unkeyed, Replaced(id, peer)], [Offered(id, r.value)]);
      OffersOne(f, Offered(id, r.value));
      NoOffers(f, [Unkeyed, Replaced(id, peer)]);
    } else {
      NoOffers(f, PairEntries(id, peer, r, radio));
    }
  }

  lemma PairSendsOffer(f: Suite, s: Service, id: string, pubKey: string, w: World)
    requires s.plain == Offers(f, s.log)
    ensures OnPair(f, s, id, pubKey, w).plain == Offers(f, OnPair(f, s, id, pubKey, w).log)
  {
    if f.decode64(pubKey).Some? {
      var peer := f.decode64(pubKey).value;
      var r := PairResult(f, s.ctx, peer, id, w.secret, w.nonce(0), w.disk);
      PairingIsPlain(f, id, peer, r, w.radio(0));
      OffersAppend(f, s.log, PairEntries(id, peer, r, w.radio(0)));
    }
  }

  lemma ConnectSendsOffer(f: Suite, s: Service, device: Device, w: World)
    requires s.plain == Offers(f, s.log)
    ensures OnConnect(f, s, device, w).plain == Offers(f, OnConnect(f, s, device, w).log)
  {
    if w.mac.Some? && Stored(f, s.ctx, w.mac.value).Success? && w.radio(0) {
      var e := Offered(w.mac.value, Stored(f, s.ctx, w.mac.value).value.publicKey);
      OffersOne(f, e);
      OffersAppend(f, s.log, [e]);
    } else {
      assert s.log + [] == s.log && s.plain + [] == s.plain;
    }
  }

  lemma ChallengeIsNotPlain(f: Suite, s: Service, id: string, data: Bytes, firmware: string)
    ensures Offers(f, OnChallenge(f, s, id, data, firmware).log) == Offers(f, s.log)
  {
    var t := OnChallenge(f, s, id, data, firmware);
    var more := t.log[|s.log|..];
    assert t.log == s.log + more;
    NoOffers(f, more);
    OffersAppend(f, s.log, more);
  }

  lemma StepSendsOffers(f: Suite, s: Service, step: Step)
    requires s.plain == Offers(f, s.log)
    ensures Next(f, s, step).plain == Offers(f, Next(f, s, step).log)
  {
    match step
    case Publish(_) =>
    case Input(e, w) => SendingIsNotPlain(f, s, PayloadsOf(e), w);
    case Notify(r) =>
      if s.deviceId.Some? && r.Challenge? {
        ChallengeIsNotPlain(f, s, s.deviceId.value, r.data, r.firmware);
      }
    case Command(cmd, w) =>
      match cmd
      case PairDevice(_, pubKey) => if s.deviceId.Some? { PairSendsOffer(f, s, s.deviceId.value, pubKey, w); }
      case ConnectToDevice(device) => ConnectSendsOffer(f, s, device, w);
      case KillService =>
      case ScanForDevices =>
      case _ => SendingIsNotPlain(f, s, CommandPayloads(cmd), w);
  }

  /** Along every run, what went out unencrypted is exactly the Base64 text of every public key the log says the device
      was offered, in order; nothing else ever goes out in the clear. */
  lemma {:induction false} PlainIsOffers(f: Suite, s: Service, steps: seq<Step>)
    requires s.plain == Offers(f, s.log)
    ensures Run(f, s, steps).plain == Offers(f, Run(f, s, steps).log)
    decreases |steps|
  {
    if steps != [] {
      StepSendsOffers(f, s, steps[0]);
      PlainIsOffers(f, Next(f, s, steps[0]), steps[1..]);
    }
  }

  // ---- Keys that were not taken -------------------------------------------

  /** The step is a pairing that succeeds and whose public key the radio takes. */
  predicate KeyIsTaken(f: Suite, s: Service, step: Step) {
    && !s.stopped && s.running && s.deviceId.Some? && step.Command? && step.cmd.PairDevice? && step.w.radio(0)
    && f.decode64(step.cmd.pubKey).Some? && |f.decode64(step.cmd.pubKey).value| == COMPRESSED_KEY_SIZE
    && PairResult(f, s.ctx, f.decode64(step.cmd.pubKey).value, s.deviceId.value, step.w.secret, step.w.nonce(0),
                  step.w.disk).Success?
  }

  ghost predicate NoKeyIsTaken(f: Suite, s: Service, steps: seq<Step>)
    decreases |steps|
  {
    steps == [] || (!KeyIsTaken(f, s, steps[0]) && NoKeyIsTaken(f, Next(f, s, steps[0]), steps[1..]))
  }

  lemma SendingOffersNothing(f: Suite, s: Service, payloads: seq<EncryptedData>, w: World, id: string)
    ensures KeyOffered(s.log + SendAll(f, s.ctx, payloads, w, 0), id) == KeyOffered(s.log, id)
  {
    SendAllSends(f, s.ctx, payloads, w, 0);
    SentChangesNothing(s.log, SendAll(f, s.ctx, payloads, w, 0));
  }

  lemma ChallengeOffersNothing(f: Suite, s: Service, id: string, data: Bytes, firmware: string)
    ensures KeyOffered(OnChallenge(f, s, id, data, firmware).log, id) == KeyOffered(s.log, id)
  {
    var t := OnChallenge(f, s, id, data, firmware);
    if t.log == s.log + [Unkeyed] {
      KeyChangeIsNoOffer(s.log, Unkeyed, id);
    } else if Stored(f, s.ctx, id).Success? {
      var e := Keyed(id, Stored(f, s.ctx, id).value, data);
      assert t.log == s.log + [e];
      KeyChangeIsNoOffer(s.log, e, id);
    } else {
      assert t.log == s.log;
    }
  }

  /** In a running session only a pairing whose key is taken gives the device a key it was not given before. */
  lemma StepOffersNothing(f: Suite, s: Service, step: Step, id: string)
    requires s.running && s.deviceId == Some(id) && !KeyIsTaken(f, s, step)
    ensures var t := Next(f, s, step);
            t.running && t.deviceId == s.deviceId
            && (KeyOffered(s.log, id).None? ==> KeyOffered(t.log, id).None?)
  {
    match step
    case Publish(_) =>
    case Input(e, w) => SendingOffersNothing(f, s, PayloadsOf(e), w, id);
    case Notify(r) =>
      if r.Challenge? {
        ChallengeOffersNothing(f, s, id, r.data, r.firmware);
      }
    case Command(cmd, w) =>
      if cmd.PairDevice? {
        if f.decode64(cmd.pubKey).Some? {
          var peer := f.decode64(cmd.pubKey).value;
          PairingTells(s.log, id, peer, PairResult(f, s.ctx, peer, id, w.secret, w.nonce(0), w.disk), w.radio(0), id);
        }
      } else {
        SendingOffersNothing(f, s, CommandPayloads(cmd), w, id);
      }
  }

  lemma {:induction false} NothingIsOffered(f: Suite, s: Service, steps: seq<Step>, id: string)
    requires s.running && s.deviceId == Some(id) && KeyOffered(s.log, id).None?
    requires NoKeyIsTaken(f, s, steps)
    ensures KeyOffered(Run(f, s, steps).log, id).None?
    decreases |steps|
  {
    if steps != [] {
      StepOffersNothing(f, s, steps[0], id);
      NothingIsOffered(f, Next(f, s, steps[0]), steps[1..], id);
    }
  }

  /** A pairing that the storage accepts but whose public key the radio refuses leaves the device without the key of the
      session that replaced its own, and it stays so along every run, whatever is sent and whatever
      challenges arrive, until a later pairing's key is taken: the greeting is not repeated. */
  lemma RefusedKeyIsNotRepeated(f: Suite, s: Service, device: Device, pubKey: string, peer: Bytes, w: World,
                                steps: seq<Step>)
    requires s.running && !s.stopped && s.deviceId.Some?
    requires f.decode64(pubKey) == Some(peer) && |peer| == COMPRESSED_KEY_SIZE && !w.radio(0)
    requires PairResult(f, s.ctx, peer, s.deviceId.value, w.secret, w.nonce(0), w.disk).Success?
    requires NoKeyIsTaken(f, Next(f, s, Command(PairDevice(device, pubKey), w)), steps)
    ensures var id, paired := s.deviceId.value, Next(f, s, Command(PairDevice(device, pubKey), w));
            && Stored(f, paired.ctx, id) == Success(SessionRecord(id, w.secret, f.publicKey(w.secret),
                                                                  f.decompress(peer).value))
            && KeyOffered(Run(f, paired, steps).log, id).None?
  {
    var id, paired := s.deviceId.value, Next(f, s, Command(PairDevice(device, pubKey), w));
    SaveStores(f, Generate(f, s.ctx, id, f.decompress(peer).value, w.secret), w.nonce(0), w.disk, id);
    PairingTells(s.log, id, peer, Success(f.publicKey(w.secret)), false, id);
    NothingIsOffered(f, paired, steps, id);
  }
}
