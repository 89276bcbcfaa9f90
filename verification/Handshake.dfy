/** The pairing dialogue between the service, the client and the user, from one end to the other. */
module Handshake {
  import opened Basics
  import opened AppModel
  import opened Primitives
  import opened Ecdh
  import opened BleSession
  import opened Navigation
  import Packets

  /** The state the client shows after it has been told of this state of the service. */
  function Told(t: Tui, app: AppState): Tui { t.(appWatch := Watch(app, true, false)) }

  function Type(f: Functions, t: Tui, text: string): Tui
    decreases |text|
  {
    if text == [] then t else Type(f, PressKey(f, t, Char(text[0]), true), text[1..])
  }

  lemma {:induction false} TypingAppends(f: Functions, t: Tui, text: string)
    requires t.current.PairingInput?
    ensures Type(f, t, text) == t.(current := PairingInput(t.current.input + text, t.current.status))
    decreases |text|
  {
    if text == [] {
      assert t.current.input + text == t.current.input;
    } else {
      var u := PressKey(f, t, Char(text[0]), true);
      assert u == t.(current := PairingInput(t.current.input + [text[0]], t.current.status));
      TypingAppends(f, u, text[1..]);
      Regroup(t.current.input, [text[0]], text[1..]);
      assert [text[0]] + text[1..] == text;
    }
  }

  /** A client that waits for a device and hears of a failed authentication asks for a key. */
  lemma FailureAsks(v: Tui)
    requires v.current.Scanning? || v.current.DeviceList? || v.current.Connected?
    requires AuthOf(v.appState) == Some(AuthenticationFailed)
    ensures var asked := AutoTransition(v);
            && asked.current == NEW_PAIRING && |asked.stack| == |v.stack| + 1
            && DropLast(asked.stack) == v.stack && Last(asked.stack).Connected?
            && asked == v.(current := asked.current, stack := asked.stack)
  {
    var u := FindConnection(FindDevices(v));
    assert u.current.Connected? && u == v.(current := u.current);
  }

  /** An unknown peer makes the client ask for a key, wherever it was waiting for the device, with the connected
      screen right below. */
  lemma UnknownPeerAsks(f: Suite, s: Service, t: Tui)
    requires s.running && !s.stopped && s.deviceId.Some? && s.app.connectedDevice.Some?
    requires t.current.Scanning? || t.current.DeviceList? || t.current.Connected?
    requires !t.serviceWatch.HasChanged()
    ensures var app := BleSession.Next(f, s, Notify(PeerUnknown)).app;
            var asked := Sync(Told(t, app));
            && AuthOf(app) == Some(AuthenticationFailed)
            && asked.current == NEW_PAIRING
            && asked.stack != [] && DropLast(asked.stack) == t.stack && Last(asked.stack).Connected?
            && asked.sent == t.sent && asked.appWatch.value == app && asked.serviceWatch == t.serviceWatch
  {
    var app := BleSession.Next(f, s, Notify(PeerUnknown)).app;
    FailureAsks(Told(t, app).(appState := app, appWatch := Watch(app, false, false)));
  }

  /** Whatever text decodes, once trimmed, to the peer's key is sent to the service as it is. */
  lemma TypedKeyIsSent(f: Suite, t: Tui, text: string, peer: Bytes)
    requires t.current == NEW_PAIRING && t.stack != []
    requires f.decode64(Packets.Trim(text)) == Some(peer) && |peer| == COMPRESSED_KEY_SIZE
    requires t.appWatch.value.connectedDevice.Some?
    ensures var done := PressKey(f, Type(f, t, text), Enter, true);
            && done.sent == t.sent + [PairDevice(t.appWatch.value.connectedDevice.value, Packets.Trim(text))]
            && done.current == Last(t.stack) && done.stack == DropLast(t.stack)
            && done.serviceWatch == t.serviceWatch
  {
    TypingAppends(f, t, text);
    assert "" + text == text;
  }

  /** A pairing the storage accepts, followed by a challenge, gives the session the key agreed with that peer. */
  lemma PairingThenChallengeKeys(f: Suite, s: Service, device: Device, pubKey: string, peer: Bytes, w: World,
                                 challenge: Bytes, firmware: string)
    requires s.running && !s.stopped && s.deviceId.Some? && s.app.connectedDevice.Some?
    requires f.decode64(pubKey) == Some(peer) && |peer| == COMPRESSED_KEY_SIZE
    requires PairResult(f, s.ctx, peer, s.deviceId.value, w.secret, w.nonce(0), w.disk).Success?
    ensures var paired := BleSession.Next(f, s, Command(PairDevice(device, pubKey), w));
            var end := BleSession.Next(f, paired, Notify(Challenge(challenge, firmware)));
            var id, ours := s.deviceId.value, f.publicKey(w.secret);
            var r := SessionRecord(id, w.secret, ours, f.decompress(peer).value);
            && paired.log == s.log + PairEntries(id, peer, Success(ours), w.radio(0))
            && paired.plain == s.plain + (if w.radio(0) then [f.encode64(ours)] else [])
            && end.log == paired.log + [Keyed(id, r, challenge)]
            && end.ctx.active == Some(Session(r, DerivedKey(f, r, Salt(challenge))))
            && end.ctx.active.value.aesKey.Some?
            && IsAuthenticated(end.app) && !end.stopped
  {
    assert IsLawful(f);
    var id := s.deviceId.value;
    var point := f.decompress(peer).value;
    var g := Generate(f, s.ctx, id, point, w.secret);
    SaveStores(f, g, w.nonce(0), w.disk, id);
    assert f.diffieHellman(w.secret, point).Some?;
  }

  /** The client's part: told that the peer is unknown, and given a key that decodes, it sends that key and
      returns to the connected screen. */
  lemma ClientSendsKey(f: Suite, s: Service, t: Tui, text: string, peer: Bytes)
    requires s.running && !s.stopped && s.deviceId.Some? && s.app.connectedDevice.Some?
    requires t.current.Scanning? || t.current.DeviceList? || t.current.Connected?
    requires !t.serviceWatch.HasChanged()
    requires f.decode64(Packets.Trim(text)) == Some(peer) && |peer| == COMPRESSED_KEY_SIZE
    ensures var app := BleSession.Next(f, s, Notify(PeerUnknown)).app;
            var done := Dialogue(f, t, app, text);
            && app.connectedDevice.Some?
            && done.sent == t.sent + [PairDevice(app.connectedDevice.value, Packets.Trim(text))]
            && done.current.Connected? && done.serviceWatch == t.serviceWatch
  {
    var app := BleSession.Next(f, s, Notify(PeerUnknown)).app;
    UnknownPeerAsks(f, s, t);
    TypedKeyIsSent(f, Sync(Told(t, app)), text, peer);
  }

  /** The client hears of the state, the user types the text and presses Enter. */
  function Dialogue(f: Functions, t: Tui, app: AppState, text: string): Tui {
    PressKey(f, Type(f, Sync(Told(t, app)), text), Enter, true)
  }

  /** The service's part: the pairing and then the challenge leave it keyed for that peer, with its invariant intact. */
  lemma ServiceIsKeyed(f: Suite, s: Service, device: Device, pubKey: string, peer: Bytes, w: World,
                       challenge: Bytes, firmware: string)
    requires BleSession.Inv(f, s)
    requires s.running && !s.stopped && s.deviceId.Some? && s.app.connectedDevice.Some?
    requires f.decode64(pubKey) == Some(peer) && |peer| == COMPRESSED_KEY_SIZE
    requires PairResult(f, s.ctx, peer, s.deviceId.value, w.secret, w.nonce(0), w.disk).Success?
    ensures var end := Paired(f, s, device, pubKey, w, challenge, firmware);
            BleSession.Inv(f, end) && KeyedFor(f, end, peer, w, challenge) && IsAuthenticated(end.app)
  {
    PairingThenChallengeKeys(f, s, device, pubKey, peer, w, challenge, firmware);
    var step1, step2 := Command(PairDevice(device, pubKey), w), Notify(Challenge(challenge, firmware));
    var paired := BleSession.Next(f, s, step1);
    var end := BleSession.Next(f, paired, step2);
    BleSession.StepKeepsInv(f, s, step1);
    BleSession.StepKeepsInv(f, paired, step2);
    var id, ours := s.deviceId.value, f.publicKey(w.secret);
    PairingTells(s.log, id, peer, Success(ours), w.radio(0), id);
    var r := SessionRecord(id, w.secret, ours, f.decompress(peer).value);
    KeyChangeIsNoOffer(paired.log, Keyed(id, r, challenge), id);
  }

  /** The session is keyed for the peer, whose device holds our new public key exactly if the radio took it. */
  ghost predicate KeyedFor(f: Suite, s: Service, peer: Bytes, w: World, challenge: Bytes) {
    && s.deviceId.Some? && f.decompress(peer).Some?
    && var id, ours := s.deviceId.value, f.publicKey(w.secret);
       && LastChange(s.log) == Some(Keyed(id, SessionRecord(id, w.secret, ours, f.decompress(peer).value), challenge))
       && PeerOf(s.log, id) == Some(peer)
       && KeyOffered(s.log, id) == if w.radio(0) then Some(ours) else None
  }

  /** The peer opens whatever is sent in such a session. */
  lemma KeyedPeerOpens(f: Suite, s: Service, peer: Bytes, w: World, challenge: Bytes, b: Scalar,
                       payload: Packets.EncryptedData, later: World)
    requires BleSession.Inv(f, s) && KeyedFor(f, s, peer, w, challenge) && f.decompress(peer) == Some(f.publicKey(b))
    ensures forall e :: e in SendNow(f, s.ctx, payload, later, 0) ==>
              e.Sent? && e.payload == payload && Opens(f, b, f.publicKey(w.secret), challenge, e)
  {
    var sent := SendNow(f, s.ctx, payload, later, 0);
    if sent != [] {
      SealedPacketIsOk(f, s, sent[0], later.nonce(0));
      AuthorisedOpens(f, s.deviceId, s.log, sent[0], b);
    }
  }

  /** The service receives the command, and then the peer's challenge. */
  function Paired(f: Suite, s: Service, device: Device, pubKey: string, w: World, challenge: Bytes,
                  firmware: string): Service
  {
    BleSession.Next(f, BleSession.Next(f, s, Command(PairDevice(device, pubKey), w)),
                    Notify(Challenge(challenge, firmware)))
  }

  lemma UnknownKeepsSession(f: Suite, s: Service)
    requires BleSession.Inv(f, s) && s.running && !s.stopped && s.deviceId.Some? && s.app.connectedDevice.Some?
    ensures var unknown := BleSession.Next(f, s, Notify(PeerUnknown));
            unknown == s.(app := unknown.app) && unknown.app.connectedDevice.Some? && BleSession.Inv(f, unknown)
  {
    BleSession.StepKeepsInv(f, s, Notify(PeerUnknown));
  }

  lemma AuthenticatedStays(t: Tui, app: AppState)
    requires t.current.Connected? && IsAuthenticated(app) && !t.serviceWatch.HasChanged()
    ensures Sync(Told(t, app)).current == t.current
  {
  }

  /** The whole dialogue. A connected but unknown peer, a user who types its key, and a challenge: the command
      the client sends keys the session with that peer, which opens whatever is sent next, and the client
      stays on the connected screen. */
  lemma HandshakeCompletes(f: Suite, s: Service, t: Tui, text: string, peer: Bytes, w: World,
                           challenge: Bytes, firmware: string, b: Scalar, payload: Packets.EncryptedData, later: World)
    requires BleSession.Inv(f, s)
    requires s.running && !s.stopped && s.deviceId.Some? && s.app.connectedDevice.Some?
    requires t.current.Scanning? || t.current.DeviceList? || t.current.Connected?
    requires !t.serviceWatch.HasChanged()
    requires f.decode64(Packets.Trim(text)) == Some(peer) && |peer| == COMPRESSED_KEY_SIZE
    requires PairResult(f, s.ctx, peer, s.deviceId.value, w.secret, w.nonce(0), w.disk).Success?
    requires f.decompress(peer) == Some(f.publicKey(b))
    ensures var unknown := BleSession.Next(f, s, Notify(PeerUnknown));
            var done := Dialogue(f, t, unknown.app, text);
            && done.sent != [] && Last(done.sent).PairDevice?
            && var end := Paired(f, unknown, Last(done.sent).device, Last(done.sent).pubKey, w, challenge, firmware);
               && BleSession.Inv(f, end) && KeyedFor(f, end, peer, w, challenge)
               && (forall e :: e in SendNow(f, end.ctx, payload, later, 0) ==>
                     e.Sent? && e.payload == payload && Opens(f, b, f.publicKey(w.secret), challenge, e))
               && Sync(Told(done, end.app)).current.Connected?
  {
    UnknownKeepsSession(f, s);
    ClientSendsKey(f, s, t, text, peer);
    var unknown := BleSession.Next(f, s, Notify(PeerUnknown));
    var done, device := Dialogue(f, t, unknown.app, text), unknown.app.connectedDevice.value;
    ServiceIsKeyed(f, unknown, device, Packets.Trim(text), peer, w, challenge, firmware);
    assert Last(done.sent) == PairDevice(device, Packets.Trim(text));
    var end := Paired(f, unknown, device, Packets.Trim(text), w, challenge, firmware);
    KeyedPeerOpens(f, end, peer, w, challenge, b, payload, later);
    AuthenticatedStays(done, end.app);
  }
}
