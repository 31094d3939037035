/** Whatever sequence of saves, mutations, rekeys, repairs and migrations is
    run, the stored metadata describes the sealing key: the same password opens
    the file to the last written contents, until a keyring migration, after
    which only the new key does. */
module VaultUnlock {
  import opened Lists
  import opened VaultEnvelope

  /** Who can open the vault, and to what. No password means keyring mode. */
  datatype Access = Access(password: Option<string>, key: Key, contents: string)

  /** A keyring key is random: no password derives it. */
  ghost predicate Underivable(c: Crypto, key: Key) {
    forall pw, s, h :: c.kdf(pw, s, h) != key
  }

  /** The file was sealed for `a`, and its metadata says so. */
  ghost predicate Holds(c: Crypto, f: File, a: Access) {
    && ReadStrict(c, f).Some? && c.parses(a.contents)
    && f.env.ciphertext == Some(c.seal(a.key, f.env.nonce.value, a.contents))
    && if a.password.Some?
       then a.password.value != "" && f.env.keyMode != "keyring"
            && a.key == c.kdf(a.password.value, f.env.salt.value, ShapeOf(f.env.params))
       else f.env.keyMode == "keyring" && Underivable(c, a.key)
  }

  /** What an operation does to the access, as its caller thinks of it. */
  function Granted(c: Crypto, a: Access, op: Op): Option<Access> {
    var byPassword := op.SaveByPassword? || op.MutateByPassword? || op.Rekey? || op.Migrate?
                      || (op.MutateSession? && op.password != "");
    if byPassword && a.password != Some(op.password) then None
    else
      match op
      case SaveByPassword(pw, x, rnd) => Some(Access(Some(pw), c.kdf(pw, rnd.salt, Argon2id(DEFAULT_PARAMS)), x))
      case SaveByKey(key, x, _) => if key == a.key then Some(a.(contents := x)) else None
      case MutateByPassword(pw, mutate, rnd) =>
        if mutate(a.contents).None? then None
        else Some(Access(Some(pw), c.kdf(pw, rnd.salt, Argon2id(DEFAULT_PARAMS)), mutate(a.contents).value))
      case MutateByKey(key, mutate, _) => Edit(a, key, mutate)
      case MutateSession(pw, key, preload, mutate, _) =>
        if (pw == "" && key == ZERO_KEY) || !preload(a.contents) then None
        else Edit(a, if pw != "" then a.key else key, mutate)
      case Rekey(pw, p, rnd) => Some(a.(key := c.kdf(pw, rnd.salt, Argon2id(Clamp(p)))))
      case Migrate(_, key, _) => if key == ZERO_KEY then None else Some(Access(None, key, a.contents))
      case Repair(pw, _, _) => if a.password == Some(pw) then Some(a) else None
  }

  function Edit(a: Access, key: Key, mutate: string -> Option<string>): Option<Access> {
    if key != a.key || mutate(a.contents).None? then None else Some(a.(contents := mutate(a.contents).value))
  }

  /** Contents are a serialised vault, and random values are what they should be. */
  ghost predicate Proper(c: Crypto, op: Op) {
    && Drawn(op.rnd)
    && ((op.SaveByPassword? || op.SaveByKey?) ==> c.parses(op.contents))
    && ((op.MutateByPassword? || op.MutateByKey? || op.MutateSession?) ==>
          forall x :: op.mutate(x).Some? ==> c.parses(op.mutate(x).value))
    && (op.Migrate? ==> Underivable(c, op.key))
  }

  // ---------------------------------------------------------------- unlocking

  lemma OnlyTheKeyOpens(c: Crypto, f: File, a: Access, key: Key)
    requires Sound(c) && Holds(c, f, a)
    ensures Unsealed(c, key, f.env) == if key == a.key then Some(a.contents) else None
  {
  }

  /** A file that holds an access opens for exactly that password and that key. */
  lemma Unlocks(c: Crypto, f: File, a: Access, password: string, key: Key)
    requires Sound(c) && Holds(c, f, a)
    ensures LoadByKey(c, f, key) == if key == a.key then Some(a.contents) else None
    ensures LoadByPassword(c, f, password) == if a.password == Some(password) then Some((a.contents, a.key)) else None
  {
  }

  // ---------------------------------------------------------------- what writers write

  lemma SignedIsValid(c: Crypto, e: Envelope)
    ensures ValidDigest(c, Signed(c, e))
  {
  }

  lemma CiphertextFits(c: Crypto, key: Key, contents: string, nonce: seq<Byte>, e: Envelope, indent: bool)
    requires Sound(c) && e.ciphertext == Some(c.seal(key, nonce, contents)) && c.size(e, indent) <= MAX_FILE
    ensures ValidCiphertext(e)
  {
  }

  /** A freshly sealed envelope is readable exactly when it is small enough and
      its salt and parameters are within the bounds that reading enforces. */
  lemma SealedReads(c: Crypto, key: Key, contents: string, salt: seq<Byte>, p: Params, nonce: seq<Byte>, indent: bool)
    requires Sound(c) && |nonce| == 12
    ensures var e := SealedEnvelope(c, key, contents, salt, p, nonce);
            ReadStrict(c, Stored(e, c.size(e, indent))).Some?
            <==> c.size(e, indent) <= MAX_FILE && ValidSalt(Some(salt), p.time) && (p.time == 0 || SafeParams(p))
  {
  }

  lemma PasswordSaveHolds(c: Crypto, password: string, contents: string, rnd: Random)
    requires Sound(c) && Drawn(rnd) && password != "" && c.parses(contents)
    ensures var f := Indented(c, PasswordEnvelope(c, password, contents, rnd));
            Holds(c, f, Access(Some(password), c.kdf(password, rnd.salt, Argon2id(DEFAULT_PARAMS)), contents))
            <==> f.bytes <= MAX_FILE
  {
  }

  lemma KeyedSaveHolds(c: Crypto, f: File, a: Access, contents: string, rnd: Random)
    requires Sound(c) && Drawn(rnd) && Holds(c, f, a) && c.parses(contents)
    ensures var f' := Keyed(c, f, a.key, contents, rnd);
            Holds(c, f', a.(contents := contents)) <==> f'.bytes <= MAX_FILE
  {
  }

  lemma RekeyHolds(c: Crypto, a: Access, p: Params, rnd: Random)
    requires Sound(c) && Drawn(rnd) && c.parses(a.contents) && a.password.Some? && a.password.value != ""
    ensures var key := c.kdf(a.password.value, rnd.salt, Argon2id(Clamp(p)));
            var f := Compact(c, SealedEnvelope(c, key, a.contents, rnd.salt, Clamp(p), rnd.nonce));
            Holds(c, f, a.(key := key)) <==> f.bytes <= MAX_FILE && p.time <= 10
  {
  }

  lemma MigrationHolds(c: Crypto, key: Key, contents: string, rnd: Random)
    requires Sound(c) && Drawn(rnd) && c.parses(contents) && Underivable(c, key)
    ensures var f := Compact(c, KeyringEnvelope(c, key, contents, rnd));
            Holds(c, f, Access(None, key, contents)) <==> f.bytes <= MAX_FILE
  {
  }

  /** Repair finds nothing to repair in a vault its password opens, and nothing
      to recover with any other password. */
  lemma RepairLeaves(c: Crypto, f: File, a: Access, password: string, mode: RepairMode, rnd: Random)
    requires Sound(c) && Holds(c, f, a)
    ensures Repaired(c, f, password, mode, rnd) == if a.password == Some(password) then Some(f) else None
  {
    forall i | 0 <= i < 4
      ensures a.password != Some(password) ==> Tried(c, password, f.env, i).None?
    {
      var key := Derive(c, password, f.env.salt, Candidates(f.env)[i]);
      if key.Some? {
        OnlyTheKeyOpens(c, f, a, key.value);
      }
    }
    if a.password == Some(password) {
      OnlyTheKeyOpens(c, f, a, a.key);
    }
  }

  // ---------------------------------------------------------------- every step, every sequence

  /** What makes a write readable again: the 2 MiB read bound and, for a rekey,
      the time cost the reader accepts (clamping does not bound it). */
  predicate Readable(op: Op, f: File) {
    f.Stored? && f.bytes <= MAX_FILE && (op.Rekey? ==> op.newParams.time <= 10)
  }

  /** An operation succeeds exactly for the right credential, and the file then
      holds the access it should exactly when the write is readable. */
  lemma StepExactly(c: Crypto, f: File, a: Access, op: Op)
    requires Sound(c) && Holds(c, f, a) && Proper(c, op)
    ensures Apply(c, f, op).Some? <==> Granted(c, a, op).Some?
    ensures Apply(c, f, op).Some? ==>
              (Holds(c, Apply(c, f, op).value, Granted(c, a, op).value) <==> Readable(op, Apply(c, f, op).value))
  {
    hide Holds, Keyed, PasswordEnvelope, SealedEnvelope, KeyringEnvelope, LoadByKey, LoadByPassword, Sound, Repaired, Rekeyed;
    match op {
      case SaveByPassword(pw, x, rnd) =>
        HeldFacts(c, f, a);
        Unlocks(c, f, a, pw, a.key);
        if a.password == Some(pw) {
          PasswordSaveHolds(c, pw, x, rnd);
        }
      case SaveByKey(key, x, rnd) =>
        HeldFacts(c, f, a);
        Unlocks(c, f, a, "", key);
        KeyedSaveHolds(c, f, a, x, rnd);
        KeyedIsStored(c, f, a, x, rnd);
      case MutateByPassword(pw, mutate, rnd) =>
        HeldFacts(c, f, a);
        Unlocks(c, f, a, pw, a.key);
        if a.password == Some(pw) && mutate(a.contents).Some? {
          PasswordSaveHolds(c, pw, mutate(a.contents).value, rnd);
        }
      case MutateByKey(key, mutate, rnd) => ReplaceExactly(c, f, a, key, mutate, rnd);
      case MutateSession(pw, key, preload, mutate, rnd) =>
        HeldFacts(c, f, a);
        Unlocks(c, f, a, pw, key);
        ReplaceExactly(c, f, a, if pw != "" then a.key else key, mutate, rnd);
      case Rekey(pw, p, rnd) => RekeyExactly(c, f, a, pw, p, rnd);
      case Migrate(pw, key, rnd) =>
        HeldFacts(c, f, a);
        Unlocks(c, f, a, pw, a.key);
        MigrationHolds(c, key, a.contents, rnd);
      case Repair(pw, mode, rnd) =>
        HeldFacts(c, f, a);
        RepairLeaves(c, f, a, pw, mode, rnd);
    }
  }

  lemma HeldFacts(c: Crypto, f: File, a: Access)
    requires Holds(c, f, a)
    ensures f.Stored? && f.bytes <= MAX_FILE && c.parses(a.contents) && a.password != Some("")
  {
  }

  lemma KeyedIsStored(c: Crypto, f: File, a: Access, contents: string, rnd: Random)
    requires Holds(c, f, a)
    ensures Keyed(c, f, a.key, contents, rnd).Stored?
  {
  }

  lemma ReplaceExactly(c: Crypto, f: File, a: Access, key: Key, mutate: string -> Option<string>, rnd: Random)
    requires Sound(c) && Holds(c, f, a) && Drawn(rnd)
    requires forall x :: mutate(x).Some? ==> c.parses(mutate(x).value)
    ensures Replaced(c, f, key, mutate, rnd).Some? <==> Edit(a, key, mutate).Some?
    ensures Replaced(c, f, key, mutate, rnd).Some? ==>
              var f' := Replaced(c, f, key, mutate, rnd).value;
              f'.Stored? && (Holds(c, f', Edit(a, key, mutate).value) <==> f'.bytes <= MAX_FILE)
  {
  }

  lemma RekeyExactly(c: Crypto, f: File, a: Access, pw: string, p: Params, rnd: Random)
    requires Sound(c) && Holds(c, f, a) && Drawn(rnd)
    ensures Rekeyed(c, f, pw, p, rnd).Some? <==> a.password == Some(pw)
    ensures a.password == Some(pw) ==>
              var f' := Rekeyed(c, f, pw, p, rnd).value;
              && f'.Stored?
              && (Holds(c, f', a.(key := c.kdf(pw, rnd.salt, Argon2id(Clamp(p))))) <==> f'.bytes <= MAX_FILE && p.time <= 10)
  {
  }

  function FileAfter(c: Crypto, f: File, ops: seq<Op>): File {
    if ops == [] then f
    else
      var before := FileAfter(c, f, ops[..|ops| - 1]);
      var r := Apply(c, before, ops[|ops| - 1]);
      if r.Some? then r.value else before
  }

  function AccessAfter(c: Crypto, a: Access, ops: seq<Op>): Access {
    if ops == [] then a
    else
      var before := AccessAfter(c, a, ops[..|ops| - 1]);
      var r := Granted(c, before, ops[|ops| - 1]);
      if r.Some? then r.value else before
  }

  ghost predicate AllProper(c: Crypto, f: File, ops: seq<Op>) {
    forall i :: 0 <= i < |ops| ==>
      Proper(c, ops[i]) && (Apply(c, FileAfter(c, f, ops[..i]), ops[i]).Some?
                            ==> Readable(ops[i], Apply(c, FileAfter(c, f, ops[..i]), ops[i]).value))
  }

  /** After any sequence of operations, right or wrong credentials alike, the
      file holds exactly the access the sequence of calls granted. */
  lemma {:induction false} EverySequence(c: Crypto, f: File, a: Access, ops: seq<Op>)
    requires Sound(c) && Holds(c, f, a) && AllProper(c, f, ops)
    ensures Holds(c, FileAfter(c, f, ops), AccessAfter(c, a, ops))
  {
    hide Holds, Sound, Apply, Granted, Proper, Readable;
    if ops != [] {
      var front, last := ops[..|ops| - 1], ops[|ops| - 1];
      assert forall i :: 0 <= i < |front| ==> ops[..i] == front[..i];
      EverySequence(c, f, a, front);
      StepExactly(c, FileAfter(c, f, front), AccessAfter(c, a, front), last);
    }
  }

  /** A password that opened the vault and was never migrated away opens it
      still, to the last accepted contents; any other password, and any key but
      the current one, opens nothing. */
  lemma PasswordStillOpens(c: Crypto, f: File, a: Access, ops: seq<Op>, password: string, key: Key)
    requires Sound(c) && Holds(c, f, a) && AllProper(c, f, ops)
    ensures var now := AccessAfter(c, a, ops);
            && (now.password == a.password || now.password == None)
            && LoadByPassword(c, FileAfter(c, f, ops), password)
               == (if now.password == Some(password) then Some((now.contents, now.key)) else None)
            && LoadByKey(c, FileAfter(c, f, ops), key) == (if key == now.key then Some(now.contents) else None)
  {
    hide Holds, Sound;
    EverySequence(c, f, a, ops);
    Unlocks(c, FileAfter(c, f, ops), AccessAfter(c, a, ops), password, key);
    PasswordKept(c, a, ops);
  }

  lemma {:induction false} PasswordKept(c: Crypto, a: Access, ops: seq<Op>)
    ensures AccessAfter(c, a, ops).password == a.password || AccessAfter(c, a, ops).password == None
  {
    if ops != [] {
      PasswordKept(c, a, ops[..|ops| - 1]);
    }
  }

  // ---------------------------------------------------------------- creation and repair

  /** Creating a vault with a bare key writes metadata that does not describe
      that key: it opens by key, and by a password only if the fresh salt
      happens to derive the key from it. */
  lemma KeyedCreation(c: Crypto, key: Key, contents: string, rnd: Random, password: string)
    requires Sound(c) && Drawn(rnd) && c.parses(contents)
    requires Keyed(c, Absent, key, contents, rnd).bytes <= MAX_FILE
    ensures var f := Apply(c, Absent, SaveByKey(key, contents, rnd)).value;
            && LoadByKey(c, f, key) == Some(contents)
            && (LoadByPassword(c, f, password).Some?
                <==> password != "" && c.kdf(password, rnd.salt, Argon2id(DEFAULT_PARAMS)) == key)
  {
  }

  /** The envelope was sealed for `password` with derivation `p`, whatever its
      metadata now says. */
  ghost predicate SealedAs(c: Crypto, e: Envelope, password: string, p: Params, contents: string) {
    && Derive(c, password, e.salt, p).Some? && e.nonce.Some? && |e.nonce.value| == 12
    && e.ciphertext == Some(c.seal(Derive(c, password, e.salt, p).value, e.nonce.value, contents))
  }

  /** Recovery finds the contents and the derivation of every envelope sealed in
      one of the historical ways. */
  lemma RecoveryFinds(c: Crypto, e: Envelope, password: string, p: Params, contents: string)
    requires Sound(c) && SealedAs(c, e, password, p, contents) && p in Candidates(e) && DigestRecoverable(c, e)
    ensures var r := Recover(c, password, e);
            && r.Recovered? && r.plain == contents && r.key == Derive(c, password, e.salt, p).value
            && ShapeOf(Candidates(e)[r.candidate]) == ShapeOf(p)
  {
    hide DigestRecoverable;
    var i :| 0 <= i < 4 && Candidates(e)[i] == p;
    assert Tried(c, password, e, i) == Some(contents);
    var r := Recover(c, password, e);
    assert c.open(r.key, e.nonce.value, e.ciphertext.value) == Some(r.plain);
    assert r.key == Derive(c, password, e.salt, p).value;
  }

  /** Repairing such an envelope makes its password open it again: always when
      upgrading, and when preserving exactly if its salt is one that normal
      reading accepts; either way within the read bound. */
  lemma RepairExactly(c: Crypto, f: File, password: string, p: Params, contents: string, mode: RepairMode, rnd: Random)
    requires Sound(c) && Drawn(rnd) && password != "" && c.parses(contents) && !mode.OtherMode?
    requires ReadRelaxed(f).Some? && !CanUnlock(c, password, f.env)
    requires SealedAs(c, f.env, password, p, contents) && p in Candidates(f.env) && DigestRecoverable(c, f.env)
    ensures Repaired(c, f, password, mode, rnd).Some?
    ensures var f' := Repaired(c, f, password, mode, rnd).value;
            && f'.Stored?
            && ((LoadByPassword(c, f', password).Some? && LoadByPassword(c, f', password).value.0 == contents)
                <==> && f'.bytes <= 2 * 1024 * 1024
                     && (mode.Preserve? ==> 8 <= |f.env.salt.value| <= 64 && (p.time != 0 ==> |f.env.salt.value| == 16)))
  {
    hide DigestRecoverable, CanUnlock;
    RecoveryFinds(c, f.env, password, p, contents);
    var r := Recover(c, password, f.env);
    if mode.Preserve? {
      SealedReads(c, r.key, contents, f.env.salt.value, Candidates(f.env)[r.candidate], rnd.nonce, true);
    } else {
      PasswordSaveHolds(c, password, contents, rnd);
      SealedReads(c, c.kdf(password, rnd.salt, Argon2id(DEFAULT_PARAMS)), contents, rnd.salt, DEFAULT_PARAMS, rnd.nonce, true);
    }
  }

  /** Diagnosis is laxer than unlocking. When it reports that the password opens
      the envelope, and repair therefore does nothing, normal unlocking still
      works exactly when mode, salt and digest also pass the strict checks. */
  lemma DiagnosisExactly(c: Crypto, f: File, password: string, rnd: Random)
    requires password != "" && ReadRelaxed(f).Some? && CanUnlock(c, password, f.env)
    ensures Repaired(c, f, password, Preserve, rnd) == Some(f)
    ensures LoadByPassword(c, f, password).Some?
            <==> && (f.env.keyMode == "" || f.env.keyMode == "password")
                 && 8 <= |f.env.salt.value| <= 64 && (f.env.params.time != 0 ==> |f.env.salt.value| == 16)
                 && (f.env.digest == "" || f.env.digest == c.hash(f.env.(digest := "")))
                 && c.parses(Tried(c, password, f.env, 0).value)
  {
  }

  // ---------------------------------------------------------------- what is stored

  /** A rekeyed vault is signed and labelled with the cost that was asked for:
      the time whatever it is but 0, memory and threads within their bounds and
      the bound itself beyond it; in particular with parameters that are within
      all bounds exactly as they were asked. */
  lemma RekeyStores(c: Crypto, f: File, password: string, p: Params, rnd: Random)
    requires Rekeyed(c, f, password, p, rnd).Some?
    ensures var e := Rekeyed(c, f, password, p, rnd).value.env;
            && e.params.time == (if p.time == 0 then 1 else p.time) && e.params.keyLen == 32
            && (4 * 1024 <= p.memoryKiB <= 512 * 1024 ==> e.params.memoryKiB == p.memoryKiB)
            && (p.memoryKiB < 4 * 1024 ==> e.params.memoryKiB == 4 * 1024)
            && (p.memoryKiB > 512 * 1024 ==> e.params.memoryKiB == 512 * 1024)
            && (1 <= p.threads <= 8 ==> e.params.threads == p.threads)
            && (p.threads == 0 ==> e.params.threads == 1) && (p.threads > 8 ==> e.params.threads == 8)
            && (1 <= p.time && 4 * 1024 <= p.memoryKiB <= 512 * 1024 && 1 <= p.threads <= 8 && p.keyLen == 32 ==> e.params == p)
            && e.salt == Some(rnd.salt) && e.nonce == Some(rnd.nonce) && e.kdf == "argon2id" && e.keyMode == ""
            && e.digest == c.hash(e.(digest := ""))
  {
  }

  /** A vault saved under a password is signed and labelled with three passes over 64 MiB on
      two threads, and so is one repaired by upgrading. */
  lemma SaveStores(c: Crypto, f: File, op: Op)
    requires op.SaveByPassword? || op.MutateByPassword? || (op.Repair? && op.mode.Upgrade?)
    requires Apply(c, f, op).Some? && Apply(c, f, op) != Some(f)
    ensures Apply(c, f, op).value.Stored?
    ensures var e := Apply(c, f, op).value.env;
            && e.params == Params(3, 64 * 1024, 2, 32) && e.salt == Some(op.rnd.salt) && e.nonce == Some(op.rnd.nonce)
            && e.kdf == "argon2id" && e.keyMode == "" && e.digest == c.hash(e.(digest := ""))
  {
    hide LoadByPassword, Recover, CanUnlock, ReadRelaxed;
  }

  /** A keyed save of a vault that is there keeps how its key is derived, and a
      migration says that nothing derives it. */
  lemma KeyedSaveStores(c: Crypto, f: File, op: Op)
    requires op.SaveByKey? || op.MutateByKey? || op.MutateSession? || op.Migrate?
    requires f.Stored? && Apply(c, f, op).Some?
    ensures Apply(c, f, op).value.Stored?
    ensures var e, e' := f.env, Apply(c, f, op).value.env;
            && e'.nonce == Some(op.rnd.nonce) && e'.digest == c.hash(e'.(digest := ""))
            && (op.Migrate? ==> e'.kdf == "keyring" && e'.keyMode == "keyring" && e'.params == Params(0, 0, 0, 0))
            && (!op.Migrate? ==> e'.kdf == e.kdf && e'.keyMode == e.keyMode && e'.salt == e.salt
                                 && (e.keyMode != "keyring" ==> e'.params == e.params))
  {
    hide LoadByPassword, Unsealed, ValidEnvelope, ValidDigest;
  }

  /** Whatever an operation writes is sealed under the nonce drawn for it and
      signed over all its other fields. */
  lemma FreshlySealed(c: Crypto, f: File, op: Op)
    requires Apply(c, f, op).Some? && Apply(c, f, op) != Some(f)
    ensures Apply(c, f, op).value.Stored?
    ensures var e := Apply(c, f, op).value.env;
            e.version == 1 && e.nonce == Some(op.rnd.nonce) && e.ciphertext.Some? && e.digest == c.hash(e.(digest := ""))
  {
    hide LoadByPassword, Unsealed, ValidEnvelope, ValidDigest, Recover, CanUnlock, ReadRelaxed;
  }

  /** A preserving repair keeps the salt and labels the vault with the derivation
      that opened it, which is the stored one or one of the three ever used. */
  lemma PreservingStores(c: Crypto, f: File, password: string, rnd: Random)
    requires Repaired(c, f, password, Preserve, rnd).Some? && Repaired(c, f, password, Preserve, rnd) != Some(f)
    ensures f.Stored? && Repaired(c, f, password, Preserve, rnd).value.Stored?
    ensures var e, e' := f.env, Repaired(c, f, password, Preserve, rnd).value.env;
            && e'.salt == e.salt && e'.kdf == "argon2id" && e'.keyMode == ""
            && (e'.params == e.params || e'.params == Params(0, 0, 0, 0) || e'.params == Params(1, 64 * 1024, 2, 32)
                || e'.params == Params(3, 64 * 1024, 2, 32))
  {
    hide CanUnlock;
  }

  /** No vault is opened that is over 2 MiB, was altered since it was signed, or
      asks for more than ten passes, 512 MiB or eight threads. */
  lemma OpenedIsBounded(c: Crypto, f: File, password: string, key: Key)
    requires LoadByPassword(c, f, password).Some? || LoadByKey(c, f, key).Some?
    ensures f.Stored? && f.bytes <= 2 * 1024 * 1024 && f.env.version == 1
    ensures f.env.digest == "" || f.env.digest == c.hash(f.env.(digest := ""))
    ensures f.env.keyMode == "keyring" || f.env.params.time == 0
            || (f.env.params.time <= 10 && 4 * 1024 <= f.env.params.memoryKiB <= 512 * 1024 && 1 <= f.env.params.threads <= 8
                && f.env.params.keyLen == 32)
    ensures f.env.salt.Some? && 8 <= |f.env.salt.value| <= 64 && (f.env.params.time != 0 ==> |f.env.salt.value| == 16)
    ensures f.env.nonce.Some? && |f.env.nonce.value| == 12
    ensures LoadByPassword(c, f, password).Some? ==> f.env.keyMode != "keyring" && password != ""
  {
  }

  /** An envelope that was sealed and signed with one of the three derivations
      ever used, and then labelled with any other parameters, gives its contents
      back to its password; so does one that was never signed. */
  lemma MislabelledIsRecovered(c: Crypto, sealed: Envelope, shown: Params, password: string, contents: string)
    requires Sound(c)
    requires sealed.params == Params(0, 0, 0, 0) || sealed.params == Params(1, 64 * 1024, 2, 32)
             || sealed.params == Params(3, 64 * 1024, 2, 32)
    requires sealed.salt.Some? && sealed.salt.value != [] && sealed.nonce.Some? && |sealed.nonce.value| == 12
    requires sealed.digest == "" || sealed.digest == c.hash(sealed.(digest := ""))
    requires var shape := if sealed.params.time == 0 then Argon2i else Argon2id(sealed.params);
             sealed.ciphertext
             == Some(c.seal(c.kdf(password, sealed.salt.value, shape), sealed.nonce.value, contents))
    ensures var r := Recover(c, password, sealed.(params := shown)); r.Recovered? && r.plain == contents
  {
    hide Sound, Recover, CanUnlock;
    var e := sealed.(params := shown);
    assert sealed.params in Candidates(e);
    assert e.(params := sealed.params) == sealed;
    RecoveryFinds(c, e, password, sealed.params, contents);
  }
}
