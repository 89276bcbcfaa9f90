/** Sessions with paired devices: generated by pairing, kept in the store, keyed by a challenge. */
module Ecdh {
  import opened Basics
  import opened Primitives
  import opened Storage

  datatype CryptoError =
    | DeviceNotFound | StorageFailed(cause: StorageError) | BadSession | NotSerializable | BadPeerKey | NoSessionKey
    | SealFailed | TooShort | OpenFailed

  datatype Session = Session(record: SessionRecord, aesKey: Option<Bytes>)

  datatype Context = Context(active: Option<Session>, store: Store)

  function SessionKey(deviceId: string): string { "session_" + deviceId }

  function Salt(challenge: Bytes): Option<Bytes> { if challenge == [] then None else Some(challenge) }

  function AesKey(f: Functions, secret: Bytes, salt: Option<Bytes>): Bytes { f.hkdf(salt, secret, "aes-gcm-256") }

  /** The key both sides derive from the agreed secret; nothing if the peer's key is no point. */
  function DerivedKey(f: Functions, r: SessionRecord, salt: Option<Bytes>): Option<Bytes> {
    match f.diffieHellman(r.privateKey, r.peerKey)
    case None => None
    case Some(secret) => Some(AesKey(f, secret, salt))
  }

  // ---- Operations ---------------------------------------------------------

  function Generate(f: Functions, c: Context, deviceId: string, peerKey: Bytes, secret: Scalar): Context {
    c.(active := Some(Session(SessionRecord(deviceId, secret, f.publicKey(secret), peerKey), None)))
  }

  /** The stored session of a device. */
  function Stored(f: Functions, c: Context, deviceId: string): Result<SessionRecord, CryptoError> {
    match Lookup(f, c.store, SessionKey(deviceId))
    case Failure(e) => Failure(StorageFailed(e))
    case Success(bytes) =>
      match f.readSession(bytes)
      case None => Failure(BadSession)
      case Some(r) => Success(r)
  }

  function Derive(f: Functions, c: Context, salt: Option<Bytes>): Context {
    if c.active.None? || DerivedKey(f, c.active.value.record, salt).None? then c
    else c.(active := Some(c.active.value.(aesKey := DerivedKey(f, c.active.value.record, salt))))
  }

  /** A session that cannot be read leaves the old one in place; one that can replaces it,
      even when no key can be derived for it. */
  function LoadKeys(f: Functions, c: Context, deviceId: string, challenge: Bytes): Context {
    match Stored(f, c, deviceId)
    case Failure(_) => c
    case Success(r) => Derive(f, c.(active := Some(Session(r, None))), Salt(challenge))
  }

  function LoadResult(f: Functions, c: Context, deviceId: string, challenge: Bytes): Result<Bytes, CryptoError> {
    match Stored(f, c, deviceId)
    case Failure(e) => if SessionKey(deviceId) !in c.store.db then Failure(DeviceNotFound) else Failure(e)
    case Success(r) =>
      if DerivedKey(f, r, Salt(challenge)).None? then Failure(BadPeerKey) else Success(r.publicKey)
  }

  function Save(f: Functions, c: Context, nonce: Nonce, w: WriteOutcome): Context {
    if c.active.None? then c
    else
      var r := c.active.value.record;
      match f.writeSession(r)
      case None => c
      case Some(bytes) => c.(store := Set(f, c.store, SessionKey(r.deviceId), bytes, nonce, w))
  }

  function SaveResult(f: Functions, c: Context, nonce: Nonce, w: WriteOutcome): Result<(), CryptoError> {
    if c.active.None? then Success(())
    else
      match f.writeSession(c.active.value.record)
      case None => Failure(NotSerializable)
      case Some(bytes) =>
        match SetResult(f, c.store, bytes, nonce, w)
        case Success(_) => Success(())
        case Failure(e) => Failure(StorageFailed(e))
  }

  function Pair(f: Functions, c: Context, peer: Bytes, deviceId: string, secret: Scalar, nonce: Nonce,
                w: WriteOutcome): Context
  {
    match f.decompress(peer)
    case None => c
    case Some(point) => Save(f, Generate(f, c, deviceId, point, secret), nonce, w)
  }

  function PairResult(f: Functions, c: Context, peer: Bytes, deviceId: string, secret: Scalar, nonce: Nonce,
                      w: WriteOutcome): Result<Bytes, CryptoError>
  {
    match f.decompress(peer)
    case None => Failure(BadPeerKey)
    case Some(point) =>
      match SaveResult(f, Generate(f, c, deviceId, point, secret), nonce, w)
      case Failure(e) => Failure(e)
      case Success(_) => Success(f.publicKey(secret))
  }

  /** Nonce, ciphertext and tag in one blob. */
  function Encrypt(f: Suite, c: Context, data: Bytes, nonce: Nonce): (r: Result<Bytes, CryptoError>)
    ensures r.Success? ==> |r.value| == NONCE_SIZE + |data| + TAG_SIZE
  {
    assert IsLawful(f);
    if c.active.None? || c.active.value.aesKey.None? then Failure(NoSessionKey)
    else
      match f.seal(c.active.value.aesKey.value, nonce, data)
      case None => Failure(SealFailed)
      case Some(ct) => Success(nonce + ct)
  }

  function Decrypt(f: Functions, c: Context, blob: Bytes): Result<Bytes, CryptoError> {
    if c.active.None? || c.active.value.aesKey.None? then Failure(NoSessionKey)
    else if |blob| < NONCE_SIZE then Failure(TooShort)
    else
      match f.open(c.active.value.aesKey.value, blob[..NONCE_SIZE], blob[NONCE_SIZE..])
      case None => Failure(OpenFailed)
      case Some(data) => Success(data)
  }

  // ---- The object ---------------------------------------------------------

  class EcdhContext {
    const f: Suite
    const storage: StorageService
    var activeSession: Option<Session>

    ghost predicate Valid()
    {
      storage.f == f
    }

    ghost function State(): Context
      reads this, storage, storage.file
    {
      Context(activeSession, storage.State())
    }

    constructor (storage: StorageService)
      ensures Valid() && this.storage == storage && f == storage.f
      ensures State() == Context(None, storage.State())
    {
      this.f, this.storage, activeSession := storage.f, storage, None;
    }

    method GenerateDeviceKeys(deviceId: string, peerKey: Bytes, secret: Scalar) returns (ours: Bytes)
      requires Valid()
      modifies this
      ensures State() == Generate(f, old(State()), deviceId, peerKey, secret)
      ensures ours == f.publicKey(secret)
    {
      ours := f.publicKey(secret);
      activeSession := Some(Session(SessionRecord(deviceId, secret, ours, peerKey), None));
    }

    method LoadDeviceKeys(deviceId: string, challenge: Bytes) returns (r: Result<Bytes, CryptoError>)
      requires Valid()
      modifies this
      ensures State() == LoadKeys(f, old(State()), deviceId, challenge)
      ensures r == LoadResult(f, old(State()), deviceId, challenge)
    {
      if !storage.Contains(SessionKey(deviceId)) {
        return Failure(DeviceNotFound);
      }
      var bytes := storage.Get(SessionKey(deviceId));
      if bytes.Failure? {
        return Failure(StorageFailed(bytes.error));
      }
      var record := f.readSession(bytes.value);
      if record.None? {
        return Failure(BadSession);
      }
      activeSession := Some(Session(record.value, None));
      var ok := DeriveAesKey(Salt(challenge));
      return if ok then Success(record.value.publicKey) else Failure(BadPeerKey);
    }

    method DeriveAesKey(salt: Option<Bytes>) returns (ok: bool)
      requires Valid()
      modifies this
      ensures State() == Derive(f, old(State()), salt)
      ensures ok <==> old(activeSession).Some? && DerivedKey(f, old(activeSession).value.record, salt).Some?
    {
      if activeSession.None? {
        return false;
      }
      var session := activeSession.value;
      var secret := f.diffieHellman(session.record.privateKey, session.record.peerKey);
      if secret.None? {
        return false;
      }
      activeSession := Some(session.(aesKey := Some(AesKey(f, secret.value, salt))));
      return true;
    }

    method SaveSession(nonce: Nonce, w: WriteOutcome) returns (r: Result<(), CryptoError>)
      requires Valid()
      modifies storage`db, storage.file
      ensures State() == Save(f, old(State()), nonce, w)
      ensures r == SaveResult(f, old(State()), nonce, w)
    {
      if activeSession.None? {
        return Success(());
      }
      var record := activeSession.value.record;
      var bytes := f.writeSession(record);
      if bytes.None? {
        return Failure(NotSerializable);
      }
      var put := storage.Put(SessionKey(record.deviceId), bytes.value, nonce, w);
      return if put.Success? then Success(()) else Failure(StorageFailed(put.error));
    }

    method ClearSession()
      modifies this
      ensures State() == old(State()).(active := None)
    {
      activeSession := None;
    }

    predicate HasSession(deviceId: string)
      reads this, storage
    {
      storage.Contains(SessionKey(deviceId))
    }

    method GetStoredPublicKey(deviceId: string) returns (r: Result<Bytes, CryptoError>)
      requires Valid()
      ensures var s := Stored(f, State(), deviceId);
              r == if s.Success? then Success(s.value.publicKey) else Failure(s.error)
    {
      var bytes := storage.Get(SessionKey(deviceId));
      if bytes.Failure? {
        return Failure(StorageFailed(bytes.error));
      }
      var record := f.readSession(bytes.value);
      return if record.Some? then Success(record.value.publicKey) else Failure(BadSession);
    }

    method PairNewDevice(peer: Bytes, deviceId: string, secret: Scalar, nonce: Nonce, w: WriteOutcome)
      returns (r: Result<Bytes, CryptoError>)
      requires Valid()
      modifies this, storage`db, storage.file
      ensures State() == Pair(f, old(State()), peer, deviceId, secret, nonce, w)
      ensures r == PairResult(f, old(State()), peer, deviceId, secret, nonce, w)
    {
      var point := f.decompress(peer);
      if point.None? {
        return Failure(BadPeerKey);
      }
      var ours := GenerateDeviceKeys(deviceId, point.value, secret);
      var saved := SaveSession(nonce, w);
      return if saved.Success? then Success(ours) else Failure(saved.error);
    }

    method EncryptBytes(data: Bytes, nonce: Nonce) returns (r: Result<Bytes, CryptoError>)
      requires Valid()
      ensures r == Encrypt(f, State(), data, nonce)
    {
      if activeSession.None? || activeSession.value.aesKey.None? {
        return Failure(NoSessionKey);
      }
      var ct := f.seal(activeSession.value.aesKey.value, nonce, data);
      return if ct.None? then Failure(SealFailed) else Success(nonce + ct.value);
    }

    method DecryptBytes(blob: Bytes) returns (r: Result<Bytes, CryptoError>)
      requires Valid()
      ensures r == Decrypt(f, State(), blob)
    {
      if activeSession.None? || activeSession.value.aesKey.None? {
        return Failure(NoSessionKey);
      }
      if |blob| < NONCE_SIZE {
        return Failure(TooShort);
      }
      var data := f.open(activeSession.value.aesKey.value, blob[..NONCE_SIZE], blob[NONCE_SIZE..]);
      return if data.None? then Failure(OpenFailed) else Success(data.value);
    }
  }

  // ---- What every sequence of operations keeps ----------------------------

  datatype Op =
    | PairOp(peer: Bytes, deviceId: string, secret: Scalar, nonce: Nonce, w: WriteOutcome)
    | LoadOp(deviceId: string, challenge: Bytes)
    | SaveOp(nonce: Nonce, w: WriteOutcome)
    | DeriveOp(salt: Option<Bytes>)
    | ClearOp

  function Apply(f: Functions, c: Context, op: Op): Context {
    match op
    case PairOp(peer, deviceId, secret, nonce, w) => Pair(f, c, peer, deviceId, secret, nonce, w)
    case LoadOp(deviceId, challenge) => LoadKeys(f, c, deviceId, challenge)
    case SaveOp(nonce, w) => Save(f, c, nonce, w)
    case DeriveOp(salt) => Derive(f, c, salt)
    case ClearOp => c.(active := None)
  }

  function ApplyAll(f: Functions, c: Context, ops: seq<Op>): Context
    decreases |ops|
  {
    if ops == [] then c else ApplyAll(f, Apply(f, c, ops[0]), ops[1..])
  }

  predicate HalvesMatch(f: Functions, r: SessionRecord) { r.publicKey == f.publicKey(r.privateKey) }

  /** Every session entry that can be read is the named device's own, and every session has matching halves. */
  ghost predicate Sound(f: Functions, c: Context) {
    && (forall d: string :: Stored(f, c, d).Success? ==>
          Stored(f, c, d).value.deviceId == d && HalvesMatch(f, Stored(f, c, d).value))
    && (c.active.Some? ==> HalvesMatch(f, c.active.value.record))
  }

  lemma SessionKeysDiffer(d: string, e: string)
    ensures SessionKey(d) == SessionKey(e) <==> d == e
  {
    assert SessionKey(d)[|"session_"|..] == d && SessionKey(e)[|"session_"|..] == e;
  }

  /** Saving changes the entry of the active device only, and there to the active record. */
  lemma SaveStores(f: Suite, c: Context, nonce: Nonce, w: WriteOutcome, d: string)
    ensures Save(f, c, nonce, w).active == c.active
    ensures Stored(f, Save(f, c, nonce, w), d) == Stored(f, c, d)
         || (c.active.Some? && c.active.value.record.deviceId == d
             && Stored(f, Save(f, c, nonce, w), d) == Success(c.active.value.record))
    ensures SaveResult(f, c, nonce, w).Success? || SaveResult(f, c, nonce, w).error == StorageFailed(WriteFailed) ==>
            c.active.Some? && c.active.value.record.deviceId == d ==>
            Stored(f, Save(f, c, nonce, w), d) == Success(c.active.value.record)
  {
    assert IsLawful(f);
    if c.active.Some? {
      var r := c.active.value.record;
      var bytes := f.writeSession(r);
      if bytes.Some? {
        SessionKeysDiffer(r.deviceId, d);
        SetLooksUp(f, c.store, SessionKey(r.deviceId), bytes.value, nonce, w, SessionKey(d));
      }
    }
  }

  lemma SaveKeepsSound(f: Suite, c: Context, nonce: Nonce, w: WriteOutcome)
    requires Sound(f, c)
    ensures Sound(f, Save(f, c, nonce, w))
  {
    forall d: string | Stored(f, Save(f, c, nonce, w), d).Success?
      ensures Stored(f, Save(f, c, nonce, w), d).value.deviceId == d
      ensures HalvesMatch(f, Stored(f, Save(f, c, nonce, w), d).value)
    {
      SaveStores(f, c, nonce, w, d);
    }
    SaveStores(f, c, nonce, w, "");
  }

  lemma StoredIgnoresActive(f: Functions, c: Context, c': Context)
    requires c.store == c'.store
    ensures forall d: string :: Stored(f, c, d) == Stored(f, c', d)
  {
  }

  lemma ApplyKeepsSound(f: Suite, c: Context, op: Op)
    requires Sound(f, c)
    ensures Sound(f, Apply(f, c, op))
  {
    match op
    case PairOp(peer, deviceId, secret, nonce, w) =>
      if f.decompress(peer).Some? {
        var g := Generate(f, c, deviceId, f.decompress(peer).value, secret);
        StoredIgnoresActive(f, c, g);
        SaveKeepsSound(f, g, nonce, w);
      }
    case SaveOp(nonce, w) => SaveKeepsSound(f, c, nonce, w);
    case LoadOp(_, _) => StoredIgnoresActive(f, c, Apply(f, c, op));
    case DeriveOp(_) => StoredIgnoresActive(f, c, Apply(f, c, op));
    case ClearOp => StoredIgnoresActive(f, c, Apply(f, c, op));
  }

  lemma {:induction false} SoundAlways(f: Suite, c: Context, ops: seq<Op>)
    requires Sound(f, c)
    ensures Sound(f, ApplyAll(f, c, ops))
    decreases |ops|
  {
    if ops != [] {
      ApplyKeepsSound(f, c, ops[0]);
      SoundAlways(f, Apply(f, c, ops[0]), ops[1..]);
    }
  }

  /** The device's entry is this record, and so is the active session if it is the device's. */
  ghost predicate Holds(f: Functions, c: Context, d: string, r: SessionRecord) {
    && Stored(f, c, d) == Success(r)
    && (c.active.Some? && c.active.value.record.deviceId == d ==> c.active.value.record == r)
  }

  lemma ApplyKeepsRecord(f: Suite, c: Context, op: Op, d: string, r: SessionRecord)
    requires Sound(f, c) && Holds(f, c, d, r)
    requires op.PairOp? ==> op.deviceId != d
    ensures Holds(f, Apply(f, c, op), d, r)
  {
    match op
    case PairOp(peer, deviceId, secret, nonce, w) =>
      if f.decompress(peer).Some? {
        var g := Generate(f, c, deviceId, f.decompress(peer).value, secret);
        StoredIgnoresActive(f, c, g);
        SaveStores(f, g, nonce, w, d);
      }
    case SaveOp(nonce, w) => SaveStores(f, c, nonce, w, d);
    case LoadOp(_, _) => StoredIgnoresActive(f, c, Apply(f, c, op));
    case DeriveOp(_) => StoredIgnoresActive(f, c, Apply(f, c, op));
    case ClearOp => StoredIgnoresActive(f, c, Apply(f, c, op));
  }

  lemma {:induction false} RecordStays(f: Suite, c: Context, ops: seq<Op>, d: string, r: SessionRecord)
    requires Sound(f, c) && Holds(f, c, d, r)
    requires forall i :: 0 <= i < |ops| && ops[i].PairOp? ==> ops[i].deviceId != d
    ensures Holds(f, ApplyAll(f, c, ops), d, r)
    decreases |ops|
  {
    if ops != [] {
      ApplyKeepsSound(f, c, ops[0]);
      ApplyKeepsRecord(f, c, ops[0], d, r);
      RecordStays(f, Apply(f, c, ops[0]), ops[1..], d, r);
    }
  }

  /** The key a pairing returned is the one the store reports and every later load returns, under any
      challenge, until the device is paired again. */
  lemma PairedKeyLasts(f: Suite, c: Context, peer: Bytes, d: string, secret: Scalar, nonce: Nonce, w: WriteOutcome,
                       ops: seq<Op>, challenge: Bytes)
    requires Sound(f, c)
    requires PairResult(f, c, peer, d, secret, nonce, w).Success?
    requires forall i :: 0 <= i < |ops| && ops[i].PairOp? ==> ops[i].deviceId != d
    ensures var ours := PairResult(f, c, peer, d, secret, nonce, w).value;
            var end := ApplyAll(f, Pair(f, c, peer, d, secret, nonce, w), ops);
            && Stored(f, end, d).Success? && Stored(f, end, d).value.publicKey == ours
            && LoadResult(f, end, d, challenge) == Success(ours)
  {
    assert IsLawful(f);
    var point := f.decompress(peer).value;
    var g := Generate(f, c, d, point, secret);
    var r := g.active.value.record;
    SaveStores(f, g, nonce, w, d);
    ApplyKeepsSound(f, c, PairOp(peer, d, secret, nonce, w));
    RecordStays(f, Pair(f, c, peer, d, secret, nonce, w), ops, d, r);
    assert f.diffieHellman(secret, point).Some?;
  }

  /** Pairing can succeed: with functions that meet the laws it does, whatever the store holds. */
  lemma PairingIsPossible(c: Context, peer: Bytes, d: string, nonce: Nonce)
    requires |peer| == COMPRESSED_KEY_SIZE && IsLatin(d)
    ensures IsLawful(Toy()) && PairResult(Toy(), c, peer, d, 7, nonce, Wrote).Success?
  {
    ToyIsLawful();
  }

  /** The session of a device is the record read from the entry named after it. */
  lemma StoredReadsEntry(f: Functions, c: Context, d: string, r: SessionRecord)
    ensures Stored(f, c, d) == Success(r) <==>
              Lookup(f, c.store, "session_" + d).Success?
              && f.readSession(Lookup(f, c.store, "session_" + d).value) == Some(r)
  {
  }

  /** A session is read from the entry named after its device, and loading it yields a key exactly if the peer's key
      is a point: the HKDF-SHA256 output for the agreed secret, with the challenge, unless it is empty, as salt. */
  lemma LoadDerivesKey(f: Suite, c: Context, d: string, challenge: Bytes)
    ensures var r, stored := LoadResult(f, c, d, challenge), Stored(f, c, d);
            var secret := if stored.Success? then f.diffieHellman(stored.value.privateKey, stored.value.peerKey)
                          else None;
            && (r == Failure(DeviceNotFound) <==> "session_" + d !in c.store.db)
            && (r.Success? <==> stored.Success? && secret.Some?)
            && (r == Failure(BadPeerKey) <==> stored.Success? && secret.None?)
            && var active := LoadKeys(f, c, d, challenge).active;
               if stored.Failure? then active == c.active
               else active == Some(Session(stored.value,
                      if secret.None? then None
                      else Some(f.hkdf(if challenge == [] then None else Some(challenge), secret.value,
                                       "aes-gcm-256"))))
  {
  }

  /** Decryption undoes encryption as long as the key stays. */
  lemma DecryptUndoesEncrypt(f: Suite, c: Context, data: Bytes, nonce: Nonce)
    requires Encrypt(f, c, data, nonce).Success?
    ensures Decrypt(f, c, Encrypt(f, c, data, nonce).value) == Success(data)
  {
    assert IsLawful(f);
    var ct := f.seal(c.active.value.aesKey.value, nonce, data).value;
    assert (nonce + ct)[..NONCE_SIZE] == nonce && (nonce + ct)[NONCE_SIZE..] == ct;
  }
}
