/** The encrypted key-value store and the plain map it stands for. */
module Storage {
  import opened Basics
  import opened Primitives

  type Db = map<string, string>

  /** What a settings file holds: the JSON text of a map of strings, or any other text. */
  datatype FileText = DbText(entries: Db) | OtherText(raw: string)

  datatype StorageError =
    | KeyNotFound | BadEncoding | CorruptedEntry | DecryptionFailed | EncryptionFailed
    | KeyringUnavailable | KeyringFailed | UnreadableFile | BadFile | WriteFailed

  /** How a write of the file ends; a failed one may leave anything behind. */
  datatype WriteOutcome = Wrote | Broke(left: Option<FileText>)

  /** The store in memory, and the file if there is one. */
  datatype Store = Store(cipherKey: Bytes, db: Db, file: Option<FileText>)

  // ---- Operations ---------------------------------------------------------

  function Lookup(f: Functions, s: Store, key: string): Result<Bytes, StorageError> {
    if key !in s.db then Failure(KeyNotFound)
    else
      match f.decode64(s.db[key])
      case None => Failure(BadEncoding)
      case Some(blob) =>
        if |blob| < NONCE_SIZE then Failure(CorruptedEntry)
        else
          match f.open(s.cipherKey, blob[..NONCE_SIZE], blob[NONCE_SIZE..])
          case None => Failure(DecryptionFailed)
          case Some(value) => Success(value)
  }

  function Flush(s: Store, w: WriteOutcome): Store {
    match w
    case Wrote => s.(file := Some(DbText(s.db)))
    case Broke(left) => s.(file := left)
  }

  function Set(f: Functions, s: Store, key: string, value: Bytes, nonce: Nonce, w: WriteOutcome): Store {
    match f.seal(s.cipherKey, nonce, value)
    case None => s
    case Some(c) => Flush(s.(db := s.db[key := f.encode64(nonce + c)]), w)
  }

  function SetResult(f: Functions, s: Store, value: Bytes, nonce: Nonce, w: WriteOutcome): Result<(), StorageError> {
    if f.seal(s.cipherKey, nonce, value).None? then Failure(EncryptionFailed)
    else if w.Broke? then Failure(WriteFailed)
    else Success(())
  }

  function Delete(s: Store, key: string, w: WriteOutcome): Store {
    Flush(s.(db := s.db - {key}), w)
  }

  // ---- Opening ------------------------------------------------------------

  /** The key in the keyring if it can be read and has the right size, otherwise a new one. */
  function MasterKey(read: Option<Bytes>, random: Bytes): Bytes {
    if IsMasterKey(read) then read.value else random
  }

  predicate IsMasterKey(read: Option<Bytes>) { read.Some? && |read.value| == MASTER_KEY_SIZE }

  function CipherKey(f: Functions, master: Bytes, password: Option<Bytes>): Bytes {
    match password
    case None => master
    case Some(pw) => f.hkdf(Some(pw), master, "toothpaste-desktop-v1")
  }

  function Load(cipherKey: Bytes, file: Option<FileText>): Result<Store, StorageError> {
    match file
    case None => Success(Store(cipherKey, map[], None))
    case Some(DbText(entries)) => Success(Store(cipherKey, entries, file))
    case Some(OtherText(_)) => Failure(BadFile)
  }

  // ---- The objects --------------------------------------------------------

  class StoreFile {
    var text: Option<FileText>
    // Whether a file that exists can be read.
    var readable: bool

    constructor (text: Option<FileText>, readable: bool)
      ensures this.text == text && this.readable == readable
    {
      this.text, this.readable := text, readable;
    }

    method Write(t: FileText, w: WriteOutcome) returns (ok: bool)
      modifies this`text
      ensures ok <==> w.Wrote?
      ensures text == if w.Wrote? then Some(t) else w.left
    {
      match w
      case Wrote => text, ok := Some(t), true;
      case Broke(left) => text, ok := left, false;
    }
  }

  /** The operating system's keyring, whose entry may be impossible to name, to read or to write. */
  class Keyring {
    var secret: Option<Bytes>
    var available: bool
    var readable: bool
    var writable: bool

    constructor (secret: Option<Bytes>, available: bool, readable: bool, writable: bool)
      ensures this.secret == secret && this.available == available
      ensures this.readable == readable && this.writable == writable
    {
      this.secret, this.available, this.readable, this.writable := secret, available, readable, writable;
    }

    function Read(): Option<Bytes>
      reads this
    {
      if readable then secret else None
    }
  }

  class StorageService {
    const f: Suite
    const cipherKey: Bytes
    const file: StoreFile
    var db: Db

    ghost function State(): Store
      reads this, file
    {
      Store(cipherKey, db, file.text)
    }

    constructor (f: Suite, cipherKey: Bytes, db: Db, file: StoreFile)
      ensures this.f == f && this.file == file
      ensures State() == Store(cipherKey, db, file.text)
    {
      this.f, this.cipherKey, this.db, this.file := f, cipherKey, db, file;
    }

    /** Opens the store. A master key that cannot be read or has the wrong size is replaced by `random`,
        which must then be written to the keyring. */
    static method Open(f: Suite, keyring: Keyring, file: StoreFile, password: Option<Bytes>, random: Bytes)
      returns (r: Result<StorageService, StorageError>)
      modifies keyring`secret
      ensures var mustWrite := !(old(keyring.Read()).Some? && |old(keyring.Read()).value| == 32);
              if !keyring.available then
                r == Failure(KeyringUnavailable) && keyring.secret == old(keyring.secret)
              else if mustWrite && !keyring.writable then
                r == Failure(KeyringFailed) && keyring.secret == old(keyring.secret)
              else
                var master := if mustWrite then random else old(keyring.Read()).value;
                && keyring.secret == Some(master)
                && if file.text.Some? && !file.readable then r == Failure(UnreadableFile) else
                   match r
                   case Success(s) =>
                     && fresh(s) && s.f == f && s.file == file
                     && s.cipherKey == (match password
                                        case None => master
                                        case Some(pw) => f.hkdf(Some(pw), master, "toothpaste-desktop-v1"))
                     && !(file.text.Some? && file.text.value.OtherText?)
                     && s.db == if file.text.None? then map[] else file.text.value.entries
                   case Failure(e) => e == BadFile && file.text.Some? && file.text.value.OtherText?
    {
      if !keyring.available {
        return Failure(KeyringUnavailable);
      }
      var master := random;
      var secret := keyring.Read();
      if secret.Some? && |secret.value| == MASTER_KEY_SIZE {
        master := secret.value;
      } else {
        if !keyring.writable {
          return Failure(KeyringFailed);
        }
        keyring.secret := Some(master);
      }
      if file.text.Some? && !file.readable {
        return Failure(UnreadableFile);
      }
      var key := CipherKey(f, master, password);
      match file.text
      case None =>
        var s := new StorageService(f, key, map[], file);
        return Success(s);
      case Some(DbText(entries)) =>
        var s := new StorageService(f, key, entries, file);
        return Success(s);
      case Some(OtherText(_)) =>
        return Failure(BadFile);
    }

    method Get(key: string) returns (r: Result<Bytes, StorageError>)
      ensures r == Lookup(f, State(), key)
    {
      if key !in db {
        return Failure(KeyNotFound);
      }
      var decoded := f.decode64(db[key]);
      if decoded.None? {
        return Failure(BadEncoding);
      }
      var blob := decoded.value;
      if |blob| < NONCE_SIZE {
        return Failure(CorruptedEntry);
      }
      var value := f.open(cipherKey, blob[..NONCE_SIZE], blob[NONCE_SIZE..]);
      return if value.Some? then Success(value.value) else Failure(DecryptionFailed);
    }

    method Put(key: string, value: Bytes, nonce: Nonce, w: WriteOutcome) returns (r: Result<(), StorageError>)
      modifies this`db, file
      ensures State() == Set(f, old(State()), key, value, nonce, w)
      ensures r == SetResult(f, old(State()), value, nonce, w)
    {
      var c := f.seal(cipherKey, nonce, value);
      if c.None? {
        return Failure(EncryptionFailed);
      }
      db := db[key := f.encode64(nonce + c.value)];
      var ok := WriteDb(w);
      return if ok then Success(()) else Failure(WriteFailed);
    }

    method Remove(key: string, w: WriteOutcome) returns (ok: bool)
      modifies this`db, file
      ensures State() == Delete(old(State()), key, w)
      ensures ok <==> w.Wrote?
    {
      db := db - {key};
      ok := WriteDb(w);
    }

    predicate Contains(key: string)
      reads this
    {
      key in db
    }

    method WriteDb(w: WriteOutcome) returns (ok: bool)
      modifies file
      ensures State() == Flush(old(State()), w)
      ensures ok <==> w.Wrote?
    {
      ok := file.Write(DbText(db), w);
    }
  }

  // ---- The plain map ------------------------------------------------------

  datatype Op =
    | PutOp(key: string, value: Bytes, nonce: Nonce, w: WriteOutcome)
    | DeleteOp(key: string, w: WriteOutcome)

  function Apply(f: Functions, s: Store, op: Op): Store {
    match op
    case PutOp(key, value, nonce, w) => Set(f, s, key, value, nonce, w)
    case DeleteOp(key, w) => Delete(s, key, w)
  }

  function ApplyAll(f: Functions, s: Store, ops: seq<Op>): Store
    decreases |ops|
  {
    if ops == [] then s else Apply(f, ApplyAll(f, s, DropLast(ops)), Last(ops))
  }

  /** The entries that decrypt, as a map from key to value. */
  function View(f: Functions, s: Store): map<string, Bytes> {
    map k | k in s.db && Lookup(f, s, k).Success? :: Lookup(f, s, k).value
  }

  /** The encryption of this operation's value succeeds; deletions always take effect. */
  predicate TakesEffect(f: Functions, cipherKey: Bytes, op: Op) {
    op.PutOp? ==> f.seal(cipherKey, op.nonce, op.value).Some?
  }

  function PlainApply(f: Functions, cipherKey: Bytes, m: map<string, Bytes>, op: Op): map<string, Bytes> {
    if !TakesEffect(f, cipherKey, op) then m
    else
      match op
      case PutOp(key, value, _, _) => m[key := value]
      case DeleteOp(key, _) => m - {key}
  }

  function PlainApplyAll(f: Functions, cipherKey: Bytes, m: map<string, Bytes>, ops: seq<Op>): map<string, Bytes> {
    if ops == [] then m
    else PlainApply(f, cipherKey, PlainApplyAll(f, cipherKey, m, DropLast(ops)), Last(ops))
  }

  /** The answer a lookup owes to the operations so far: the last one on this key that took effect decides. */
  function LastWrite(f: Functions, s: Store, key: string, ops: seq<Op>): Result<Bytes, StorageError> {
    if ops == [] then Lookup(f, s, key)
    else
      var op := Last(ops);
      if op.key != key || !TakesEffect(f, s.cipherKey, op) then LastWrite(f, s, key, DropLast(ops))
      else
        match op
        case PutOp(_, value, _, _) => Success(value)
        case DeleteOp(_, _) => Failure(KeyNotFound)
  }

  /** An entry is the Base64 text of nonce and sealed value. */
  lemma SetWrites(f: Suite, s: Store, key: string, value: Bytes, nonce: Nonce, w: WriteOutcome)
    ensures var t := Set(f, s, key, value, nonce, w);
            if f.seal(s.cipherKey, nonce, value).None? then t == s
            else t.db == s.db[key := f.encode64(nonce + f.seal(s.cipherKey, nonce, value).value)]
                 && t.cipherKey == s.cipherKey && t.file == if w.Wrote? then Some(DbText(t.db)) else w.left
  {
  }

  /** A lookup succeeds exactly with what opens under the store's key from an entry that is the text of a nonce and a
      sealed value, and otherwise tells what is wrong with the entry. */
  lemma LookupOpens(f: Suite, s: Store, key: string, value: Bytes)
    ensures Lookup(f, s, key) == Success(value) <==>
              exists nonce: Nonce, sealed: Bytes ::
                key in s.db && f.decode64(s.db[key]) == Some(nonce + sealed)
                && f.open(s.cipherKey, nonce, sealed) == Some(value)
    ensures Lookup(f, s, key) == Failure(KeyNotFound) <==> key !in s.db
    ensures Lookup(f, s, key) == Failure(BadEncoding) <==> key in s.db && f.decode64(s.db[key]).None?
    ensures Lookup(f, s, key) == Failure(CorruptedEntry)
       <==> key in s.db && f.decode64(s.db[key]).Some? && |f.decode64(s.db[key]).value| < 12
  {
    if key in s.db && f.decode64(s.db[key]).Some? {
      var blob := f.decode64(s.db[key]).value;
      if |blob| >= NONCE_SIZE {
        var nonce: Nonce := blob[..NONCE_SIZE];
        assert blob == nonce + blob[NONCE_SIZE..];
        forall n: Nonce, sealed: Bytes | blob == n + sealed
          ensures n == nonce && sealed == blob[NONCE_SIZE..]
        {
          assert n == (n + sealed)[..NONCE_SIZE] && sealed == (n + sealed)[NONCE_SIZE..];
        }
      }
    }
  }

  lemma SetLooksUp(f: Suite, s: Store, key: string, value: Bytes, nonce: Nonce, w: WriteOutcome, k: string)
    ensures Lookup(f, Set(f, s, key, value, nonce, w), k)
         == if k == key && f.seal(s.cipherKey, nonce, value).Some? then Success(value) else Lookup(f, s, k)
  {
    assert IsLawful(f);
    var c := f.seal(s.cipherKey, nonce, value);
    if c.Some? {
      var blob: Bytes := nonce + c.value;
      assert f.decode64(f.encode64(blob)) == Some(blob);
      assert blob[..NONCE_SIZE] == nonce && blob[NONCE_SIZE..] == c.value;
    }
  }

  lemma ApplyLooksUp(f: Suite, s: Store, op: Op, k: string)
    ensures Apply(f, s, op).cipherKey == s.cipherKey
    ensures Lookup(f, Apply(f, s, op), k)
         == if k != op.key || !TakesEffect(f, s.cipherKey, op) then Lookup(f, s, k)
            else if op.PutOp? then Success(op.value) else Failure(KeyNotFound)
  {
    if op.PutOp? {
      SetLooksUp(f, s, op.key, op.value, op.nonce, op.w, k);
    }
  }

  /** After any operations, with any write failures, a lookup returns the last value set and not deleted;
      keys never touched answer as they did at first, down to the error. */
  lemma {:induction false} LookupIsLastWrite(f: Suite, s: Store, key: string, ops: seq<Op>)
    ensures ApplyAll(f, s, ops).cipherKey == s.cipherKey
    ensures Lookup(f, ApplyAll(f, s, ops), key) == LastWrite(f, s, key, ops)
    decreases |ops|
  {
    if ops != [] {
      LookupIsLastWrite(f, s, key, DropLast(ops));
      ApplyLooksUp(f, ApplyAll(f, s, DropLast(ops)), Last(ops), key);
    }
  }

  lemma ViewIsLookup(f: Functions, s: Store, k: string)
    ensures k in View(f, s) <==> Lookup(f, s, k).Success?
    ensures k in View(f, s) ==> View(f, s)[k] == Lookup(f, s, k).value
  {
  }

  /** The encrypted store refines a plain map. */
  lemma {:induction false} StoreRefinesMap(f: Suite, s: Store, ops: seq<Op>)
    ensures ApplyAll(f, s, ops).cipherKey == s.cipherKey
    ensures View(f, ApplyAll(f, s, ops)) == PlainApplyAll(f, s.cipherKey, View(f, s), ops)
    decreases |ops|
  {
    if ops != [] {
      var before, op := ApplyAll(f, s, DropLast(ops)), Last(ops);
      StoreRefinesMap(f, s, DropLast(ops));
      var view, plain := View(f, Apply(f, before, op)), PlainApply(f, s.cipherKey, View(f, before), op);
      forall k: string
        ensures k in view <==> k in plain
        ensures k in view ==> view[k] == plain[k]
      {
        ViewIsLookup(f, Apply(f, before, op), k);
        ViewIsLookup(f, before, k);
        ApplyLooksUp(f, before, op, k);
      }
      assert view == plain;
    }
  }

  // ---- Durability ---------------------------------------------------------

  predicate Acknowledged(f: Functions, cipherKey: Bytes, op: Op) {
    TakesEffect(f, cipherKey, op) && op.w.Wrote?
  }

  /** Whatever failed before, once an operation is acknowledged the file equals the memory, and opening it with the
      same master key and password gives the same store, without a new master key being made. */
  lemma ReopenRestores(f: Suite, s: Store, ops: seq<Op>, master: Bytes, password: Option<Bytes>, random: Bytes)
    requires |master| == MASTER_KEY_SIZE && s.cipherKey == CipherKey(f, master, password)
    requires ops != [] && Acknowledged(f, s.cipherKey, Last(ops))
    ensures var end := ApplyAll(f, s, ops);
            && MasterKey(Some(master), random) == master
            && end.file == Some(DbText(end.db))
            && Load(CipherKey(f, MasterKey(Some(master), random), password), end.file) == Success(end)
  {
    LookupIsLastWrite(f, s, "", DropLast(ops));
  }
}
