/** The encrypted vault file: several writers reseal it under different keys,
    salts and KDF metadata, and the metadata must always describe the key that
    sealed it. The KDF, the cipher and the digest are parameters. */
module VaultEnvelope {
  import opened Lists

  type Byte = x: int | 0 <= x < 256

  type Key = seq<Byte>

  const ZERO_KEY: Key := seq(32, _ => 0)

  datatype Params = Params(time: nat, memoryKiB: nat, threads: nat, keyLen: nat)

  const NO_PARAMS := Params(0, 0, 0, 0)
  const EARLY_PARAMS := Params(1, 64 * 1024, 2, 32)
  const DEFAULT_PARAMS := Params(3, 64 * 1024, 2, 32)

  const MAX_FILE := 2 * 1024 * 1024
  const MAX_CIPHERTEXT := 16 * 1024 * 1024

  /** Stored fields are base64 text; None is text that does not decode. */
  datatype Envelope = Envelope(version: int, digest: string, kdf: string, keyMode: string, params: Params,
                               salt: Option<seq<Byte>>, nonce: Option<seq<Byte>>, ciphertext: Option<seq<Byte>>)

  datatype File = Absent | Garbage | Stored(env: Envelope, bytes: nat)

  /** What a derived key depends on besides the password and the salt. */
  datatype Shape = Argon2i | Argon2id(params: Params)

  datatype Crypto = Crypto(
    kdf: (string, seq<Byte>, Shape) -> Key,
    seal: (Key, seq<Byte>, string) -> seq<Byte>,
    open: (Key, seq<Byte>, seq<Byte>) -> Option<string>,
    hash: Envelope -> string,
    size: (Envelope, bool) -> nat,
    parses: string -> bool)

  function Base64Length(n: nat): nat { (n + 2) / 3 * 4 }

  /** Opening undoes sealing and a wrong key fails; the KDF is collision-free;
      a serialised envelope is no shorter than its ciphertext text. */
  ghost predicate Sound(c: Crypto) {
    && (forall k, n, p :: |c.seal(k, n, p)| >= 16 && c.open(k, n, c.seal(k, n, p)) == Some(p))
    && (forall k, k', n, p :: k != k' ==> c.open(k', n, c.seal(k, n, p)) == None)
    && (forall pw, s, h, pw', s', h' :: c.kdf(pw, s, h) == c.kdf(pw', s', h') ==> pw == pw' && s == s' && h == h')
    && (forall e: Envelope, b :: e.ciphertext.Some? ==> c.size(e, b) >= Base64Length(|e.ciphertext.value|))
  }

  // ---------------------------------------------------------------- checks

  predicate SafeParams(p: Params) {
    1 <= p.time <= 10 && 4 * 1024 <= p.memoryKiB <= 512 * 1024 && 1 <= p.threads <= 8 && p.keyLen == 32
  }

  function Clamp(p: Params): Params {
    Params(if p.time < 1 then 1 else p.time,
           if p.memoryKiB < 4 * 1024 then 4 * 1024 else if p.memoryKiB > 512 * 1024 then 512 * 1024 else p.memoryKiB,
           if p.threads < 1 then 1 else if p.threads > 8 then 8 else p.threads, 32)
  }

  predicate ValidSalt(salt: Option<seq<Byte>>, time: nat) {
    salt.Some? && 8 <= |salt.value| <= 64 && (time != 0 ==> |salt.value| == 16)
  }

  predicate ValidMode(e: Envelope) {
    if e.keyMode == "keyring" then e.kdf == "keyring"
    else (e.keyMode == "" || e.keyMode == "password") && e.kdf == "argon2id"
  }

  predicate ValidCiphertext(e: Envelope) {
    e.ciphertext.None? || (e.ciphertext.value != [] && Base64Length(|e.ciphertext.value|) <= MAX_CIPHERTEXT)
  }

  predicate ValidEnvelope(e: Envelope) {
    && e.version == 1 && ValidMode(e) && ValidCiphertext(e) && ValidSalt(e.salt, e.params.time)
    && e.nonce.Some? && |e.nonce.value| == 12
    && (e.keyMode == "keyring" || e.params.time == 0 || SafeParams(e.params))
  }

  function Digest(c: Crypto, e: Envelope): string { c.hash(e.(digest := "")) }

  predicate ValidDigest(c: Crypto, e: Envelope) {
    e.digest == "" || e.digest == Digest(c, e)
  }

  function Signed(c: Crypto, e: Envelope): Envelope { e.(digest := Digest(c, e)) }

  // ---------------------------------------------------------------- reading

  function ShapeOf(p: Params): Shape {
    if p.time == 0 then Argon2i else Argon2id(p)
  }

  function Derive(c: Crypto, password: string, salt: Option<seq<Byte>>, p: Params): Option<Key> {
    if (p.time != 0 && !SafeParams(p)) || salt.None? || salt.value == [] then None
    else Some(c.kdf(password, salt.value, ShapeOf(p)))
  }

  function ReadStrict(c: Crypto, f: File): Option<Envelope> {
    if f.Stored? && f.bytes <= MAX_FILE && ValidEnvelope(f.env) && ValidDigest(c, f.env) then Some(f.env) else None
  }

  function Unsealed(c: Crypto, key: Key, e: Envelope): Option<string> {
    if e.nonce.None? || |e.nonce.value| != 12 || e.ciphertext.None? then None
    else c.open(key, e.nonce.value, e.ciphertext.value)
  }

  function Parsed(c: Crypto, plain: Option<string>): Option<string> {
    if plain.Some? && c.parses(plain.value) then plain else None
  }

  function LoadByKey(c: Crypto, f: File, key: Key): Option<string> {
    var e := ReadStrict(c, f);
    if e.None? then None else Parsed(c, Unsealed(c, key, e.value))
  }

  /** The contents and the derived key, as unlocking with a password gives them. */
  function LoadByPassword(c: Crypto, f: File, password: string): Option<(string, Key)> {
    var e := ReadStrict(c, f);
    if password == "" || e.None? || e.value.keyMode == "keyring" then None
    else
      var key := Derive(c, password, e.value.salt, e.value.params);
      if key.None? then None
      else
        var plain := Parsed(c, Unsealed(c, key.value, e.value));
        if plain.None? then None else Some((plain.value, key.value))
  }

  // ---------------------------------------------------------------- sealing

  datatype Random = Random(salt: seq<Byte>, nonce: seq<Byte>)

  predicate Drawn(r: Random) { |r.salt| == 16 && |r.nonce| == 12 }

  /** The four derivations a mislabelled envelope may have been sealed with. */
  function Candidates(e: Envelope): seq<Params> { [e.params, NO_PARAMS, EARLY_PARAMS, DEFAULT_PARAMS] }

  function ReadRelaxed(f: File): Option<Envelope> {
    if f.Stored? && f.bytes <= MAX_FILE
       && f.env.version == 1 && f.env.kdf == "argon2id" && ValidCiphertext(f.env)
       && f.env.salt.Some? && f.env.nonce.Some?
       && (f.env.params.time == 0 ==> Base64Length(|f.env.salt.value|) <= 128)
       && (f.env.params.time != 0 ==> SafeParams(f.env.params))
    then Some(f.env) else None
  }

  predicate DigestRecoverable(c: Crypto, e: Envelope) {
    ValidDigest(c, e) || exists p <- Candidates(e) :: e.digest == Digest(c, e.(params := p))
  }

  /** Candidate `i` opens the envelope. */
  function Tried(c: Crypto, password: string, e: Envelope, i: nat): Option<string>
    requires i < 4
  {
    var key := Derive(c, password, e.salt, Candidates(e)[i]);
    if key.None? then None else Unsealed(c, key.value, e)
  }

  datatype Recovery = NotRecovered | Recovered(plain: string, key: Key, candidate: nat)

  /** The first candidate from `i` on that opens the envelope. */
  function RecoverFrom(c: Crypto, password: string, e: Envelope, i: nat): (r: Recovery)
    requires i <= 4
    ensures r.NotRecovered? ==> forall j :: i <= j < 4 ==> Tried(c, password, e, j).None?
    ensures r.Recovered? ==>
              && i <= r.candidate < 4 && Tried(c, password, e, r.candidate) == Some(r.plain)
              && Derive(c, password, e.salt, Candidates(e)[r.candidate]) == Some(r.key)
              && forall j :: i <= j < r.candidate ==> Tried(c, password, e, j).None?
    decreases 4 - i
  {
    if i == 4 then NotRecovered
    else if Tried(c, password, e, i).Some?
    then Recovered(Tried(c, password, e, i).value, Derive(c, password, e.salt, Candidates(e)[i]).value, i)
    else RecoverFrom(c, password, e, i + 1)
  }

  function Recover(c: Crypto, password: string, e: Envelope): Recovery {
    if DigestRecoverable(c, e) then RecoverFrom(c, password, e, 0) else NotRecovered
  }

  /** Diagnosis: the stored metadata already opens the envelope. */
  predicate CanUnlock(c: Crypto, password: string, e: Envelope) {
    Tried(c, password, e, 0).Some?
  }

  datatype RepairMode = Preserve | Upgrade | OtherMode

  /** The envelope a password save writes. */
  function PasswordEnvelope(c: Crypto, password: string, contents: string, rnd: Random): Envelope {
    SealedEnvelope(c, c.kdf(password, rnd.salt, ShapeOf(DEFAULT_PARAMS)), contents, rnd.salt, DEFAULT_PARAMS, rnd.nonce)
  }

  function SealedEnvelope(c: Crypto, key: Key, contents: string, salt: seq<Byte>, p: Params, nonce: seq<Byte>): Envelope {
    Signed(c, Envelope(1, "", "argon2id", "", p, Some(salt), Some(nonce), Some(c.seal(key, nonce, contents))))
  }

  /** A keyed save of an existing envelope: a new nonce and ciphertext under the
      same salt, mode and, unless keyring, KDF metadata. */
  function Resealed(c: Crypto, e: Envelope, key: Key, contents: string, rnd: Random): Envelope
    requires ValidEnvelope(e)
  {
    Signed(c, e.(version := 1, params := if e.keyMode == "keyring" then NO_PARAMS else e.params,
                 nonce := Some(rnd.nonce), ciphertext := Some(c.seal(key, rnd.nonce, contents))))
  }

  function KeyringEnvelope(c: Crypto, key: Key, contents: string, rnd: Random): Envelope {
    Signed(c, Envelope(1, "", "keyring", "keyring", NO_PARAMS, Some(rnd.salt), Some(rnd.nonce),
                       Some(c.seal(key, rnd.nonce, contents))))
  }

  function Indented(c: Crypto, e: Envelope): File { Stored(e, c.size(e, true)) }

  function Compact(c: Crypto, e: Envelope): File { Stored(e, c.size(e, false)) }

  // ---------------------------------------------------------------- the operations, as functions

  datatype Op =
    | SaveByPassword(password: string, contents: string, rnd: Random)
    | SaveByKey(key: Key, contents: string, rnd: Random)
    | MutateByPassword(password: string, mutate: string -> Option<string>, rnd: Random)
    | MutateByKey(key: Key, mutate: string -> Option<string>, rnd: Random)
    | MutateSession(password: string, key: Key, preload: string -> bool, mutate: string -> Option<string>, rnd: Random)
    | Rekey(password: string, newParams: Params, rnd: Random)
    | Migrate(password: string, key: Key, rnd: Random)
    | Repair(password: string, mode: RepairMode, rnd: Random)

  function Keyed(c: Crypto, f: File, key: Key, contents: string, rnd: Random): File
    requires f.Stored? ==> ValidEnvelope(f.env)
  {
    Indented(c, if f.Stored? then Resealed(c, f.env, key, contents, rnd)
                else SealedEnvelope(c, key, contents, rnd.salt, DEFAULT_PARAMS, rnd.nonce))
  }

  function Replaced(c: Crypto, f: File, key: Key, mutate: string -> Option<string>, rnd: Random): Option<File> {
    var plain := LoadByKey(c, f, key);
    if plain.None? || mutate(plain.value).None? then None
    else Some(Keyed(c, f, key, mutate(plain.value).value, rnd))
  }

  function Rekeyed(c: Crypto, f: File, password: string, p: Params, rnd: Random): Option<File> {
    var e := ReadStrict(c, f);
    if e.None? then None
    else
      var plain := Unsealed(c, c.kdf(password, e.value.salt.value, ShapeOf(e.value.params)), e.value);
      if plain.None? then None
      else
        var key := c.kdf(password, rnd.salt, Argon2id(Clamp(p)));
        Some(Compact(c, SealedEnvelope(c, key, plain.value, rnd.salt, Clamp(p), rnd.nonce)))
  }

  function Repaired(c: Crypto, f: File, password: string, mode: RepairMode, rnd: Random): Option<File> {
    var e := ReadRelaxed(f);
    if e.None? then None
    else if CanUnlock(c, password, e.value) then Some(f)
    else
      match Recover(c, password, e.value)
      case NotRecovered => None
      case Recovered(plain, key, i) =>
        match mode
        case Preserve =>
          Some(Indented(c, SealedEnvelope(c, key, plain, e.value.salt.value, Candidates(e.value)[i], rnd.nonce)))
        case Upgrade => Some(Indented(c, PasswordEnvelope(c, password, plain, rnd)))
        case OtherMode => None
  }

  /** The password opens the envelope, but not as its metadata describes. */
  predicate Repairable(c: Crypto, f: File, password: string) {
    var e := ReadRelaxed(f);
    e.Some? && !CanUnlock(c, password, e.value) && Recover(c, password, e.value).Recovered?
  }

  /** The file after an operation; None when it fails and changes nothing. */
  function Apply(c: Crypto, f: File, op: Op): Option<File> {
    match op
    case SaveByPassword(pw, x, rnd) =>
      if pw == "" || (!f.Absent? && LoadByPassword(c, f, pw).None?) then None
      else Some(Indented(c, PasswordEnvelope(c, pw, x, rnd)))
    case SaveByKey(key, x, rnd) =>
      if !f.Absent? && LoadByKey(c, f, key).None? then None else Some(Keyed(c, f, key, x, rnd))
    case MutateByPassword(pw, mutate, rnd) =>
      var loaded := LoadByPassword(c, f, pw);
      if loaded.None? || mutate(loaded.value.0).None? then None
      else Some(Indented(c, PasswordEnvelope(c, pw, mutate(loaded.value.0).value, rnd)))
    case MutateByKey(key, mutate, rnd) => Replaced(c, f, key, mutate, rnd)
    case MutateSession(pw, key, preload, mutate, rnd) =>
      if pw != "" then
        var loaded := LoadByPassword(c, f, pw);
        if loaded.None? || !preload(loaded.value.0) then None else Replaced(c, f, loaded.value.1, mutate, rnd)
      else
        var plain := LoadByKey(c, f, key);
        if key == ZERO_KEY || plain.None? || !preload(plain.value) then None else Replaced(c, f, key, mutate, rnd)
    case Rekey(pw, p, rnd) => Rekeyed(c, f, pw, p, rnd)
    case Migrate(pw, key, rnd) =>
      if key == ZERO_KEY || LoadByPassword(c, f, pw).None? then None
      else Some(Compact(c, KeyringEnvelope(c, key, LoadByPassword(c, f, pw).value.0, rnd)))
    case Repair(pw, mode, rnd) => Repaired(c, f, pw, mode, rnd)
  }

  // ---------------------------------------------------------------- the file

  class VaultFile {
    const c: Crypto
    var file: File
    /** The copies kept beside the file, oldest first. */
    var backups: seq<File>

    /** The file is what `result` says, or as it was before when that failed. */
    predicate Done(result: Option<File>, before: File, ok: bool)
      reads this
    {
      ok == result.Some? && file == if ok then result.value else before
    }

    constructor (c: Crypto, file: File)
      ensures this.c == c && this.file == file && backups == []
    {
      this.c, this.file, backups := c, file, [];
    }

    /** `SealWithKey`: an empty salt means a new envelope. */
    method SealWithKey(key: Key, contents: string, salt: Option<seq<Byte>>, originalParams: Params, rnd: Random)
      returns (e: Envelope)
      ensures e == Signed(c, Envelope(1, "", "argon2id", "",
                                      if salt == Some([]) && originalParams.time == 0 then DEFAULT_PARAMS else originalParams,
                                      if salt == Some([]) then Some(rnd.salt) else salt,
                                      Some(rnd.nonce), Some(c.seal(key, rnd.nonce, contents))))
    {
      var s := salt;
      if s == Some([]) {
        s := Some(rnd.salt);
      }
      var kdfParams := originalParams;
      if salt == Some([]) && kdfParams.time == 0 {
        kdfParams := DEFAULT_PARAMS;
      }
      e := Envelope(1, "", "argon2id", "", kdfParams, s, Some(rnd.nonce), Some(c.seal(key, rnd.nonce, contents)));
      e := e.(digest := Digest(c, e));
    }

    method WriteWithPassword(password: string, contents: string, rnd: Random)
      requires Drawn(rnd)
      modifies this`file
      ensures file == Indented(c, PasswordEnvelope(c, password, contents, rnd))
    {
      var key := c.kdf(password, rnd.salt, ShapeOf(DEFAULT_PARAMS));
      var e := Envelope(1, "", "argon2id", "", DEFAULT_PARAMS, Some(rnd.salt), Some(rnd.nonce),
                        Some(c.seal(key, rnd.nonce, contents)));
      e := e.(digest := Digest(c, e));
      file := Stored(e.(digest := Digest(c, e)), c.size(e.(digest := Digest(c, e)), true));
    }

    /** Keeps whatever salt, mode and parameters the file already has. */
    method WriteWithKey(key: Key, contents: string, rnd: Random)
      requires Drawn(rnd)
      requires file.Absent? || ReadStrict(c, file).Some?
      modifies this`file
      ensures old(file).Stored? ==> file == Indented(c, Resealed(c, old(file).env, key, contents, rnd))
      ensures old(file).Absent?
              ==> file == Indented(c, SealedEnvelope(c, key, contents, rnd.salt, DEFAULT_PARAMS, rnd.nonce))
    {
      var salt, params, mode, kdf := Some([]), NO_PARAMS, "", "";
      if file.Stored? {
        salt, params, mode, kdf := file.env.salt, file.env.params, file.env.keyMode, file.env.kdf;
      }
      var e := SealWithKey(key, contents, salt, params, rnd);
      if mode == "keyring" {
        e := e.(keyMode := "keyring", kdf := "keyring", params := NO_PARAMS);
      } else if kdf != "" {
        e := e.(keyMode := mode, kdf := kdf);
      }
      e := e.(digest := Digest(c, e));
      file := Stored(e, c.size(e, true));
    }

    method SaveVault(password: string, contents: string, rnd: Random) returns (ok: bool)
      requires Drawn(rnd)
      modifies this`file
      ensures Done(Apply(c, old(file), SaveByPassword(password, contents, rnd)), old(file), ok)
    {
      if password == "" {
        return false;
      }
      if !file.Absent? && LoadByPassword(c, file, password).None? {
        return false;
      }
      WriteWithPassword(password, contents, rnd);
      return true;
    }

    method SaveVaultWithKey(key: Key, contents: string, rnd: Random) returns (ok: bool)
      requires Drawn(rnd)
      modifies this`file
      ensures Done(Apply(c, old(file), SaveByKey(key, contents, rnd)), old(file), ok)
    {
      if !file.Absent? && LoadByKey(c, file, key).None? {
        return false;
      }
      WriteWithKey(key, contents, rnd);
      return true;
    }

    method MutateVault(password: string, mutate: string -> Option<string>, rnd: Random) returns (ok: bool)
      requires Drawn(rnd)
      modifies this`file
      ensures Done(Apply(c, old(file), MutateByPassword(password, mutate, rnd)), old(file), ok)
    {
      if password == "" {
        return false;
      }
      var loaded := LoadByPassword(c, file, password);
      if loaded.None? {
        return false;
      }
      var changed := mutate(loaded.value.0);
      if changed.None? {
        return false;
      }
      WriteWithPassword(password, changed.value, rnd);
      return true;
    }

    method MutateVaultWithKey(key: Key, mutate: string -> Option<string>, rnd: Random) returns (ok: bool)
      requires Drawn(rnd)
      modifies this`file
      ensures Done(Apply(c, old(file), MutateByKey(key, mutate, rnd)), old(file), ok)
    {
      var loaded := LoadByKey(c, file, key);
      if loaded.None? {
        return false;
      }
      var changed := mutate(loaded.value);
      if changed.None? {
        return false;
      }
      WriteWithKey(key, changed.value, rnd);
      return true;
    }

    /** A password is turned into its current key; without one the session's
        key is used. `preload` may refuse what it sees before the mutation. */
    method MutateVaultSession(password: string, sessionKey: Key, preload: string -> bool,
                              mutate: string -> Option<string>, rnd: Random) returns (ok: bool)
      requires Drawn(rnd)
      modifies this`file
      ensures Done(Apply(c, old(file), MutateSession(password, sessionKey, preload, mutate, rnd)), old(file), ok)
    {
      if password != "" {
        var latest := LoadByPassword(c, file, password);
        if latest.None? || !preload(latest.value.0) {
          return false;
        }
        ok := MutateVaultWithKey(latest.value.1, mutate, rnd);
        return;
      }
      if sessionKey == ZERO_KEY {
        return false;
      }
      var latest := LoadByKey(c, file, sessionKey);
      if latest.None? || !preload(latest.value) {
        return false;
      }
      ok := MutateVaultWithKey(sessionKey, mutate, rnd);
    }

    method RekeyVault(password: string, newParams: Params, rnd: Random) returns (ok: bool)
      requires Drawn(rnd)
      modifies this`file
      ensures Done(Apply(c, old(file), Rekey(password, newParams, rnd)), old(file), ok)
    {
      var current := ReadStrict(c, file);
      if current.None? {
        return false;
      }
      var oldKey := c.kdf(password, current.value.salt.value, ShapeOf(current.value.params));
      var plain := Unsealed(c, oldKey, current.value);
      if plain.None? {
        return false;
      }
      var clamped := Clamp(newParams);
      var newKey := c.kdf(password, rnd.salt, Argon2id(clamped));
      var e := SealWithKey(newKey, plain.value, Some(rnd.salt), clamped, rnd);
      file := Stored(e, c.size(e, false));
      return true;
    }

    method MigrateToKeyring(password: string, key: Key, rnd: Random) returns (ok: bool)
      requires Drawn(rnd)
      modifies this`file
      ensures Done(Apply(c, old(file), Migrate(password, key, rnd)), old(file), ok)
    {
      if key == ZERO_KEY {
        return false;
      }
      var loaded := LoadByPassword(c, file, password);
      if loaded.None? {
        return false;
      }
      var e := SealWithKey(key, loaded.value.0, Some([]), NO_PARAMS, rnd);
      e := e.(kdf := "keyring", keyMode := "keyring", params := NO_PARAMS);
      e := e.(digest := Digest(c, e));
      file := Stored(e, c.size(e, false));
      return true;
    }

    /** Tries the historical derivations in turn. */
    method OpenWithRecovery(password: string, e: Envelope) returns (r: Recovery)
      ensures r == Recover(c, password, e)
    {
      if !DigestRecoverable(c, e) {
        return NotRecovered;
      }
      var candidates := Candidates(e);
      var i := 0;
      while i < |candidates|
        invariant 0 <= i <= 4 && |candidates| == 4
        invariant Recover(c, password, e) == RecoverFrom(c, password, e, i)
      {
        var key := Derive(c, password, e.salt, candidates[i]);
        if key.Some? {
          var plain := Unsealed(c, key.value, e);
          if plain.Some? {
            return Recovered(plain.value, key.value, i);
          }
        }
        i := i + 1;
      }
      return NotRecovered;
    }

    /** Copies the file before it reseals what recovery found, and gives up when
        it cannot. */
    method RepairVault(password: string, mode: RepairMode, backupOk: bool, rnd: Random) returns (ok: bool)
      requires Drawn(rnd)
      modifies this`file, this`backups
      ensures var repairable := Repairable(c, old(file), password);
              && Done(if repairable && !backupOk then None else Apply(c, old(file), Repair(password, mode, rnd)), old(file), ok)
              && backups == old(backups) + if repairable && backupOk then [old(file)] else []
      ensures file != old(file) ==> backups == old(backups) + [old(file)]
    {
      var read := ReadRelaxed(file);
      if read.None? {
        return false;
      }
      var e := read.value;
      var key := Derive(c, password, e.salt, e.params);
      if key.Some? && Unsealed(c, key.value, e).Some? {
        return true;
      }
      var r := OpenWithRecovery(password, e);
      if r.NotRecovered? {
        return false;
      }
      if !backupOk {
        return false;
      }
      backups := backups + [file];
      match mode {
        case Preserve =>
          var e' := SealWithKey(r.key, r.plain, e.salt, Candidates(e)[r.candidate], rnd);
          e' := e'.(digest := Digest(c, e'));
          file := Stored(e', c.size(e', true));
        case Upgrade =>
          var newKey := c.kdf(password, rnd.salt, ShapeOf(DEFAULT_PARAMS));
          var e' := SealWithKey(newKey, r.plain, Some(rnd.salt), DEFAULT_PARAMS, rnd);
          e' := e'.(digest := Digest(c, e'));
          file := Stored(e', c.size(e', true));
        case OtherMode => return false;
      }
      return true;
    }
  }
}
