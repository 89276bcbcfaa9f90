/** The cryptographic and encoding functions the service calls, known only by their laws. */
module Primitives {
  import opened Basics
  import opened Packets

  const NONCE_SIZE: nat := 12
  const TAG_SIZE: nat := 16
  const MASTER_KEY_SIZE: nat := 32
  const COMPRESSED_KEY_SIZE: nat := 33

  type Nonce = n: Bytes | |n| == NONCE_SIZE witness [0, 0, 0, 0, 0, 0, 0, 0, 0, 0, 0, 0]

  // A P-256 private key.
  type Scalar = int

  /** The part of a session that is written to storage; the AES key never is. */
  datatype SessionRecord = SessionRecord(deviceId: string, privateKey: Scalar, publicKey: Bytes, peerKey: Bytes)

  datatype Functions = Functions(
    seal: (Bytes, Nonce, Bytes) -> Option<Bytes>,         // AES-256-GCM: key, nonce, plaintext
    open: (Bytes, Nonce, Bytes) -> Option<Bytes>,         // key, nonce, ciphertext followed by tag
    hkdf: (Option<Bytes>, Bytes, string) -> Bytes,        // salt, input key material, info
    publicKey: Scalar -> Bytes,                           // uncompressed point
    decompress: Bytes -> Option<Bytes>,                   // compressed point to uncompressed point
    diffieHellman: (Scalar, Bytes) -> Option<Bytes>,      // nothing for bytes that are not a point
    encode64: Bytes -> string,
    decode64: string -> Option<Bytes>,
    writeSession: SessionRecord -> Option<Bytes>,
    readSession: Bytes -> Option<SessionRecord>,
    encodePayload: EncryptedData -> Bytes)

  /** Opening inverts sealing, which adds a 16-octet tag (section 5.2 of RFC 5116); key agreement commutes and
      succeeds for every decompressed point; decoding inverts encoding. */
  ghost predicate IsLawful(f: Functions) {
    && (forall k: Bytes, n: Nonce, m: Bytes :: f.seal(k, n, m).Some? ==>
          |f.seal(k, n, m).value| == |m| + TAG_SIZE && f.open(k, n, f.seal(k, n, m).value) == Some(m))
    && (forall a: Scalar, b: Scalar ::
          f.diffieHellman(a, f.publicKey(b)).Some?
          && f.diffieHellman(a, f.publicKey(b)) == f.diffieHellman(b, f.publicKey(a)))
    && (forall a: Scalar, c: Bytes ::
          f.decompress(c).Some? ==> f.diffieHellman(a, f.decompress(c).value).Some?)
    && (forall b: Bytes :: f.decode64(f.encode64(b)) == Some(b))
    && (forall r: SessionRecord :: f.writeSession(r).Some? ==> f.readSession(f.writeSession(r).value) == Some(r))
  }

  type Suite = f: Functions | IsLawful(f) ghost witness (ToyIsLawful(); Toy())

  // ---- The laws are consistent --------------------------------------------

  ghost function Zeros(n: nat): Bytes { seq(n, _ => 0) }

  predicate IsLatin(s: string) { forall i :: 0 <= i < |s| ==> s[i] as int < 256 }

  ghost function ToyEncode(b: Bytes): string { seq(|b|, i requires 0 <= i < |b| => b[i] as char) }

  ghost function ToyDecode(s: string): Option<Bytes> {
    if IsLatin(s)
    then Some(seq(|s|, i requires 0 <= i < |s| => if s[i] as int < 256 then s[i] as int else 0))
    else None
  }

  ghost function ToyWrite(r: SessionRecord): Option<Bytes> {
    if 0 <= r.privateKey < 256 && r.publicKey == Zeros(65) && |r.peerKey| == 65 && IsLatin(r.deviceId)
    then Some([r.privateKey] + r.peerKey + ToyDecode(r.deviceId).value)
    else None
  }

  ghost function ToyRead(b: Bytes): Option<SessionRecord> {
    if |b| < 66 then None else Some(SessionRecord(ToyEncode(b[66..]), b[0], Zeros(65), b[1..66]))
  }

  ghost function Toy(): Functions {
    Functions(
      (k, n, m) => Some(m + Zeros(TAG_SIZE)),
      (k, n, c) => if |c| < TAG_SIZE then None else Some(c[..|c| - TAG_SIZE]),
      (salt, ikm, info) => ikm,
      a => Zeros(65),
      c => if |c| == COMPRESSED_KEY_SIZE then Some(c + Zeros(32)) else None,
      (a, p) => if |p| == 65 then Some(Zeros(32)) else None,
      b => ToyEncode(b),
      s => ToyDecode(s),
      r => ToyWrite(r),
      b => ToyRead(b),
      p => [])
  }

  lemma ToyReadsWhatItWrites(r: SessionRecord)
    requires ToyWrite(r).Some?
    ensures ToyRead(ToyWrite(r).value) == Some(r)
  {
    var bytes := ToyWrite(r).value;
    var id := ToyDecode(r.deviceId).value;
    assert bytes[1..66] == r.peerKey && bytes[66..] == id;
    assert ToyEncode(id) == r.deviceId;
  }

  lemma ToyIsLawful()
    ensures IsLawful(Toy())
  {
    var f := Toy();
    forall k: Bytes, n: Nonce, m: Bytes
      ensures f.seal(k, n, m).Some? ==>
          |f.seal(k, n, m).value| == |m| + TAG_SIZE && f.open(k, n, f.seal(k, n, m).value) == Some(m)
    {
      assert (m + Zeros(TAG_SIZE))[..|m|] == m;
    }
    forall r: SessionRecord | f.writeSession(r).Some?
      ensures f.readSession(f.writeSession(r).value) == Some(r)
    {
      ToyReadsWhatItWrites(r);
    }
    forall b: Bytes
      ensures f.decode64(f.encode64(b)) == Some(b)
    {
      var s := ToyEncode(b);
      assert forall i :: 0 <= i < |s| ==> s[i] as int == b[i];
      assert ToyDecode(s).value == b;
    }
  }
}
