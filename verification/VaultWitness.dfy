/** A cipher, a KDF and a digest for which everything assumed in `VaultUnlock`
    holds, and the vaults on which the program does less than it says. */
module VaultWitness {
  import opened Lists
  import opened VaultEnvelope
  import opened VaultUnlock

  // ---------------------------------------------------------------- an injective encoding

  function Ones(n: nat): (b: seq<Byte>)
    ensures |b| == n + 1
  {
    if n == 0 then [0] else [1] + Ones(n - 1)
  }

  function Bytes(b: seq<Byte>): (e: seq<Byte>)
    ensures |e| == 2 * |b| + 1
  {
    Ones(|b|) + b
  }

  function Text(s: string): seq<Byte> {
    if s == "" then [0] else [1] + Ones(s[0] as int) + Text(s[1..])
  }

  function Derivation(h: Shape): seq<Byte> {
    match h
    case Argon2i => [0]
    case Argon2id(p) => [1] + Ones(p.time) + Ones(p.memoryKiB) + Ones(p.threads) + Ones(p.keyLen)
  }

  lemma Cancels(a: seq<Byte>, x: seq<Byte>, b: seq<Byte>, y: seq<Byte>)
    requires a + x == b + y && |a| == |b|
    ensures a == b && x == y
  {
    assert a == (a + x)[..|a|] && b == (b + y)[..|a|] && x == (a + x)[|a|..] && y == (b + y)[|a|..];
  }

  lemma {:induction false} OnesApart(m: nat, x: seq<Byte>, n: nat, y: seq<Byte>)
    requires Ones(m) + x == Ones(n) + y
    ensures m == n && x == y
  {
    assert (Ones(m) + x)[0] == Ones(m)[0] && (Ones(n) + y)[0] == Ones(n)[0];
    if m > 0 {
      assert Ones(m) + x == [1] + (Ones(m - 1) + x) && Ones(n) + y == [1] + (Ones(n - 1) + y);
      Cancels([1], Ones(m - 1) + x, [1], Ones(n - 1) + y);
      OnesApart(m - 1, x, n - 1, y);
    } else {
      Cancels([0], x, [0], y);
    }
  }

  lemma BytesApart(a: seq<Byte>, x: seq<Byte>, b: seq<Byte>, y: seq<Byte>)
    requires Bytes(a) + x == Bytes(b) + y
    ensures a == b && x == y
  {
    hide Ones;
    assert Bytes(a) + x == Ones(|a|) + (a + x) && Bytes(b) + y == Ones(|b|) + (b + y);
    OnesApart(|a|, a + x, |b|, b + y);
    Cancels(a, x, b, y);
  }

  lemma {:induction false} TextApart(s: string, x: seq<Byte>, t: string, y: seq<Byte>)
    requires Text(s) + x == Text(t) + y
    ensures s == t && x == y
  {
    hide Ones;
    assert (Text(s) + x)[0] == Text(s)[0] && (Text(t) + y)[0] == Text(t)[0];
    if s != "" {
      assert Text(s) + x == [1] + (Ones(s[0] as int) + (Text(s[1..]) + x));
      assert Text(t) + y == [1] + (Ones(t[0] as int) + (Text(t[1..]) + y));
      Cancels([1], Ones(s[0] as int) + (Text(s[1..]) + x), [1], Ones(t[0] as int) + (Text(t[1..]) + y));
      OnesApart(s[0] as int, Text(s[1..]) + x, t[0] as int, Text(t[1..]) + y);
      TextApart(s[1..], x, t[1..], y);
      assert s == [s[0]] + s[1..] && t == [t[0]] + t[1..];
    } else {
      Cancels([0], x, [0], y);
    }
  }

  lemma DerivationsApart(g: Shape, h: Shape)
    requires Derivation(g) == Derivation(h)
    ensures g == h
  {
    hide Ones;
    assert Derivation(g)[0] == Derivation(h)[0];
    if g.Argon2id? {
      var p, q := g.params, h.params;
      var p3, q3 := Ones(p.keyLen) + [], Ones(q.keyLen) + [];
      var p2, q2 := Ones(p.threads) + p3, Ones(q.threads) + q3;
      var p1, q1 := Ones(p.memoryKiB) + p2, Ones(q.memoryKiB) + q2;
      assert Derivation(g) == [1] + (Ones(p.time) + p1) && Derivation(h) == [1] + (Ones(q.time) + q1);
      Cancels([1], Ones(p.time) + p1, [1], Ones(q.time) + q1);
      OnesApart(p.time, p1, q.time, q1);
      OnesApart(p.memoryKiB, p2, q.memoryKiB, q2);
      OnesApart(p.threads, p3, q.threads, q3);
      OnesApart(p.keyLen, [], q.keyLen, []);
    }
  }

  // ---------------------------------------------------------------- the cipher

  function ClearKey(password: string, salt: seq<Byte>, h: Shape): Key {
    Text(password) + (Bytes(salt) + Derivation(h))
  }

  const PADDING := Ones(15)

  /** The key, the plaintext and some padding, all in the clear. */
  function ClearSeal(key: Key, nonce: seq<Byte>, plain: string): seq<Byte> {
    Bytes(key) + (Text(plain) + PADDING)
  }

  ghost predicate Covers(key: Key, sealed: seq<Byte>, plain: string) {
    ClearSeal(key, [], plain) == sealed
  }

  ghost function PlainOf(key: Key, sealed: seq<Byte>): (plain: string)
    requires exists p: string :: Covers(key, sealed, p)
    ensures Covers(key, sealed, plain)
  {
    var p: string :| Covers(key, sealed, p);
    p
  }

  ghost function ClearOpen(key: Key, nonce: seq<Byte>, sealed: seq<Byte>): Option<string> {
    if exists p: string :: Covers(key, sealed, p) then Some(PlainOf(key, sealed)) else None
  }

  function ClearSize(e: Envelope, indent: bool): nat {
    if e.ciphertext.Some? then Base64Length(|e.ciphertext.value|) else 0
  }

  ghost function Clear(): Crypto {
    Crypto(ClearKey, ClearSeal, (k, n, x) => ClearOpen(k, n, x), (e: Envelope) => "", ClearSize, (x: string) => true)
  }

  lemma SealsApart(k: Key, n: seq<Byte>, p: string, k': Key, p': string)
    requires ClearSeal(k, n, p) == ClearSeal(k', n, p')
    ensures k == k' && p == p'
  {
    hide Bytes, Text;
    BytesApart(k, Text(p) + PADDING, k', Text(p') + PADDING);
    TextApart(p, PADDING, p', PADDING);
  }

  lemma ClearOpens(k: Key, k': Key, n: seq<Byte>, p: string)
    ensures ClearOpen(k', n, ClearSeal(k, n, p)) == if k == k' then Some(p) else None
  {
    hide Bytes, Text;
    var sealed := ClearSeal(k, n, p);
    assert Covers(k, sealed, p);
    forall p' | Covers(k', sealed, p')
      ensures k == k' && p == p'
    {
      SealsApart(k, n, p, k', p');
    }
  }

  lemma KeysApart(pw: string, s: seq<Byte>, h: Shape, pw': string, s': seq<Byte>, h': Shape)
    requires ClearKey(pw, s, h) == ClearKey(pw', s', h')
    ensures pw == pw' && s == s' && h == h'
  {
    hide Bytes, Text, Derivation;
    TextApart(pw, Bytes(s) + Derivation(h), pw', Bytes(s') + Derivation(h'));
    BytesApart(s, Derivation(h), s', Derivation(h'));
    DerivationsApart(h, h');
  }

  /** The assumptions about the KDF, the cipher and keyring keys can be met. */
  lemma SoundWitness()
    ensures Sound(Clear()) && Underivable(Clear(), [])
  {
    hide ClearSeal, ClearOpen;
    forall k, n, p
      ensures |Clear().seal(k, n, p)| >= 16 && Clear().open(k, n, Clear().seal(k, n, p)) == Some(p)
    {
      ClearOpens(k, k, n, p);
      SealedLength(k, n, p);
    }
    forall k, k', n, p | k != k'
      ensures Clear().open(k', n, Clear().seal(k, n, p)) == None
    {
      ClearOpens(k, k', n, p);
    }
    forall pw, s, h, pw', s', h' | Clear().kdf(pw, s, h) == Clear().kdf(pw', s', h')
      ensures pw == pw' && s == s' && h == h'
    {
      KeysApart(pw, s, h, pw', s', h');
    }
  }

  lemma SealedLength(k: Key, n: seq<Byte>, p: string)
    ensures |ClearSeal(k, n, p)| == 2 * |k| + 1 + |Text(p)| + 16
  {
  }

  // ---------------------------------------------------------------- vaults that get locked out

  const DRAWN := Random(Ones(15), Ones(11))

  const SHORT_SALT := Ones(7)

  const SLOW_PARAMS := Params(11, 64 * 1024, 2, 32)

  function SomeVault(salt: seq<Byte>, sealedWith: Params, written: Params): Envelope {
    Envelope(1, "", "argon2id", "", written, Some(salt), Some(DRAWN.nonce),
             Some(ClearSeal(ClearKey("p", salt, ShapeOf(sealedWith)), DRAWN.nonce, "x")))
  }

  lemma ShortText(s: string)
    requires |s| == 1
    ensures |Text(s)| == s[0] as int + 3
  {
    hide Ones;
    assert s[1..] == "";
  }

  /** Such vaults are far below the read bound. */
  lemma SmallEnough(salt: seq<Byte>, p: Params)
    requires |salt| <= 16 && 1 <= p.time <= 11 && p.memoryKiB == 64 * 1024 && p.threads == 2 && p.keyLen == 32
    ensures |ClearSeal(ClearKey("p", salt, ShapeOf(p)), DRAWN.nonce, "x")| <= 150_000
  {
    hide Ones, Text;
    ShortText("p");
    ShortText("x");
    SealedLength(ClearKey("p", salt, ShapeOf(p)), DRAWN.nonce, "x");
  }

  /** A vault rekeyed with a time cost of 11 is accepted, written, and opened by
      no password any more. */
  lemma SlowRekeyLocksOut()
    ensures var c := Clear();
            var f := Indented(c, PasswordEnvelope(c, "p", "x", DRAWN));
            var rekeyed := Apply(c, f, Rekey("p", SLOW_PARAMS, DRAWN));
            && LoadByPassword(c, f, "p").Some? && LoadByPassword(c, f, "p").value.0 == "x" && rekeyed.Some?
            && forall pw :: LoadByPassword(c, rekeyed.value, pw).None?
  {
    hide ClearSeal, ClearKey, Ones, Sound, Holds;
    var c := Clear();
    var f := Indented(c, PasswordEnvelope(c, "p", "x", DRAWN));
    var a := Access(Some("p"), c.kdf("p", DRAWN.salt, Argon2id(DEFAULT_PARAMS)), "x");
    SoundWitness();
    SmallEnough(DRAWN.salt, DEFAULT_PARAMS);
    PasswordSaveHolds(c, "p", "x", DRAWN);
    Unlocks(c, f, a, "p", a.key);
    RekeyExactly(c, f, a, "p", SLOW_PARAMS, DRAWN);
  }

  lemma ShortSaltSealed(written: Params)
    requires written == NO_PARAMS || written == EARLY_PARAMS
    ensures var c, e := Clear(), SomeVault(SHORT_SALT, EARLY_PARAMS, written);
            && SealedAs(c, e, "p", EARLY_PARAMS, "x") && DigestRecoverable(c, e) && ReadRelaxed(Indented(c, e)).Some?
            && (CanUnlock(c, "p", e) <==> written == EARLY_PARAMS) && LoadByPassword(c, Indented(c, e), "p").None?
            && (CanUnlock(c, "p", e) ==> Tried(c, "p", e, 0) == Some("x"))
  {
    hide ClearSeal, ClearKey, Ones, ClearOpen;
    var e := SomeVault(SHORT_SALT, EARLY_PARAMS, written);
    SmallEnough(SHORT_SALT, EARLY_PARAMS);
    SealedLength(ClearKey("p", SHORT_SALT, ShapeOf(EARLY_PARAMS)), DRAWN.nonce, "x");
    var key, other := ClearKey("p", SHORT_SALT, ShapeOf(EARLY_PARAMS)), ClearKey("p", SHORT_SALT, ShapeOf(written));
    ClearOpens(key, other, DRAWN.nonce, "x");
    if key == other {
      KeysApart("p", SHORT_SALT, ShapeOf(EARLY_PARAMS), "p", SHORT_SALT, ShapeOf(written));
    }
  }

  /** A vault with an 8-byte salt that an early build sealed without recording
      its parameters: a preserving repair reports success and writes a vault the
      password still does not open. */
  lemma PreservingRepairLocksOut()
    ensures var c, e := Clear(), SomeVault(SHORT_SALT, EARLY_PARAMS, NO_PARAMS);
            var repaired := Apply(c, Indented(c, e), Repair("p", Preserve, DRAWN));
            repaired.Some? && repaired != Some(Indented(c, e)) && LoadByPassword(c, repaired.value, "p").None?
  {
    hide ClearSeal, ClearKey, Ones, Sound, SealedAs, CanUnlock, DigestRecoverable, ClearOpen;
    var c, e := Clear(), SomeVault(SHORT_SALT, EARLY_PARAMS, NO_PARAMS);
    SoundWitness();
    ShortSaltSealed(NO_PARAMS);
    RepairExactly(c, Indented(c, e), "p", EARLY_PARAMS, "x", Preserve, DRAWN);
    RecoveryFinds(c, e, "p", EARLY_PARAMS, "x");
  }

  /** With its parameters recorded, the same vault is diagnosed as fine, left
      alone by repair, and not opened by its password. */
  lemma DiagnosedButLocked()
    ensures var c, e := Clear(), SomeVault(SHORT_SALT, EARLY_PARAMS, EARLY_PARAMS);
            var f := Indented(c, e);
            && CanUnlock(c, "p", e) && Apply(c, f, Repair("p", Preserve, DRAWN)) == Some(f)
            && LoadByPassword(c, f, "p").None?
  {
    hide ClearSeal, ClearKey, Ones, CanUnlock, ReadRelaxed, ClearOpen;
    var c, e := Clear(), SomeVault(SHORT_SALT, EARLY_PARAMS, EARLY_PARAMS);
    ShortSaltSealed(EARLY_PARAMS);
    DiagnosisExactly(c, Indented(c, e), "p", DRAWN);
  }
}
