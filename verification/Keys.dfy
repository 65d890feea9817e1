/** Key derivation and its cache, and the authentication tag of an encrypted segment. HMAC and the keyed hash are
    parameters. */
module Keys {
  import opened Types

  const BLOCK: nat := 32
  const XTS_KEY_SIZE: nat := 64

  type Hmac = (Bytes, Bytes) -> Bytes

  ghost predicate BlockSized(hmac: Hmac) { forall k, m :: |hmac(k, m)| == BLOCK }

  /** T(n) of section 2.3 of RFC 5869. */
  function T(hmac: Hmac, prk: Bytes, info: Bytes, n: nat): Bytes
    requires n <= 255
  {
    if n == 0 then [] else hmac(prk, T(hmac, prk, info, n - 1) + info + [n as byte])
  }

  lemma TwoBlocks(hmac: Hmac, prk: Bytes, info: Bytes)
    ensures T(hmac, prk, info, 1) == hmac(prk, info + [1])
    ensures T(hmac, prk, info, 2) == hmac(prk, T(hmac, prk, info, 1) + info + [2])
  {
    assert T(hmac, prk, info, 0) + info == info;
  }

  /** The output keying material is T(1) followed by T(2). */
  method HkdfExpand(hmac: Hmac, prk: Bytes, info: Bytes) returns (okm: array<byte>)
    requires BlockSized(hmac)
    ensures fresh(okm) && okm[..] == T(hmac, prk, info, 1) + T(hmac, prk, info, 2)
    ensures okm.Length == XTS_KEY_SIZE
  {
    okm := new byte[XTS_KEY_SIZE](_ => 0);
    var generated, previous, counter := 0, [], 1;
    while generated < XTS_KEY_SIZE
      invariant fresh(okm) && okm.Length == XTS_KEY_SIZE && 1 <= counter <= 3 && generated == BLOCK * (counter - 1)
      invariant previous == T(hmac, prk, info, counter - 1)
      invariant counter >= 2 ==> okm[..BLOCK] == T(hmac, prk, info, 1)
      invariant counter == 3 ==> okm[BLOCK..] == T(hmac, prk, info, 2)
      decreases XTS_KEY_SIZE - generated
    {
      var block := hmac(prk, previous + info + [counter as byte]);
      var take := Min(|block|, XTS_KEY_SIZE - generated);
      forall i | 0 <= i < take { okm[generated + i] := block[i]; }
      assert okm[generated..generated + take] == block;
      previous := block;
      generated := generated + take;
      counter := counter + 1;
    }
    assert okm[..] == okm[..BLOCK] + okm[BLOCK..];
  }

  /** A number in `k` bytes, lowest first. */
  function LittleEndian(n: nat, k: nat): (b: Bytes)
    ensures |b| == k
  {
    if k == 0 then [] else [(n % 256) as byte] + LittleEndian(n / 256, k - 1)
  }

  function Power256(k: nat): (p: nat)
    ensures p > 0
  {
    if k == 0 then 1 else 256 * Power256(k - 1)
  }

  lemma {:induction false} LittleEndianInjective(n: nat, m: nat, k: nat)
    requires n < Power256(k) && m < Power256(k) && LittleEndian(n, k) == LittleEndian(m, k)
    ensures n == m
  {
    if k > 0 {
      var a, b := LittleEndian(n, k), LittleEndian(m, k);
      assert a[0] == (n % 256) as byte && b[0] == (m % 256) as byte;
      assert a[1..] == LittleEndian(n / 256, k - 1) && b[1..] == LittleEndian(m / 256, k - 1);
      LittleEndianInjective(n / 256, m / 256, k - 1);
    }
  }

  /** Byte `i` is the digit of 256 to the power of `i`. */
  lemma {:induction false} LittleEndianAt(n: nat, k: nat, i: nat)
    requires i < k
    ensures LittleEndian(n, k)[i] as nat == n / Power256(i) % 256
  {
    if i > 0 {
      LittleEndianAt(n / 256, k - 1, i - 1);
      DivideTwice(n, Power256(i - 1));
    }
  }

  lemma DivideTwice(n: nat, p: nat)
    requires p > 0
    ensures n / 256 / p == n / (256 * p)
  {
    var q, r := n / 256 / p, n / 256 % p;
    assert n == 256 * (p * q + r) + n % 256;
    assert 256 * (p * q) == (256 * p) * q;
    assert 256 * r + n % 256 < 256 * p;
    Division(n, 256 * p, q, 256 * r + n % 256);
  }

  /** `version.to_be_bytes()` behind the context string. */
  function Info(context: Bytes, version: nat): Bytes { context + Reversed(LittleEndian(version, 4)) }

  function Reversed(b: Bytes): Bytes { seq(|b|, i requires 0 <= i < |b| => b[|b| - 1 - i]) }

  /** Behind the context come the four digits of the version, highest first. */
  lemma InfoDigits(context: Bytes, version: nat, i: nat)
    requires i < 4
    ensures |Info(context, version)| == |context| + 4 && Info(context, version)[..|context|] == context
    ensures Info(context, version)[|context| + i] as nat == version / Power256(3 - i) % 256
  {
    LittleEndianAt(version, 4, 3 - i);
  }

  /** Different versions derive from different inputs. */
  lemma InfoInjective(context: Bytes, v: nat, w: nat)
    requires v < Power256(4) && w < Power256(4) && Info(context, v) == Info(context, w)
    ensures v == w
  {
    var a, b := LittleEndian(v, 4), LittleEndian(w, 4);
    assert Info(context, v)[|context|..] == Reversed(a) && Info(context, w)[|context|..] == Reversed(b);
    forall i | 0 <= i < 4 ensures a[i] == b[i] {
      assert Reversed(a)[3 - i] == a[i] && Reversed(b)[3 - i] == b[i];
    }
    LittleEndianInjective(v, w, 4);
  }

  // ---------------------------------------------------------------- the key manager

  datatype KeyPair = KeyPair(key1: Bytes, key2: Bytes)

  function Split(okm: Bytes): KeyPair
    requires |okm| == XTS_KEY_SIZE
  {
    KeyPair(okm[..32], okm[32..])
  }

  class KeyManager {
    const hmac: Hmac
    const context: Bytes
    const masterKey: Bytes
    var salt: Bytes
    var cache: map<nat, KeyPair>
    var currentVersion: nat
    var rotating: bool

    /** The pair that this master key and salt give for a version. */
    ghost function Derived(version: nat): KeyPair
      requires BlockSized(hmac)
      reads this
    {
      var prk, info := hmac(salt, masterKey), Info(context, version);
      KeyPair(T(hmac, prk, info, 1), T(hmac, prk, info, 2))
    }

    /** The cache holds nothing but fresh derivations. */
    ghost predicate Valid() reads this {
      BlockSized(hmac) && currentVersion >= 1 && forall v :: v in cache ==> cache[v] == Derived(v)
    }

    /** `deviceSalt` is the salt of a secure element, if there is one: what was derived without it is dropped. */
    constructor (hmac: Hmac, context: Bytes, masterKey: Bytes, defaultSalt: Bytes, deviceSalt: Option<Bytes>)
      requires BlockSized(hmac)
      ensures Valid() && currentVersion == 1 && !rotating && 1 in cache
      ensures salt == if deviceSalt.Some? then deviceSalt.value else defaultSalt
    {
      this.hmac, this.context, this.masterKey, salt := hmac, context, masterKey, defaultSalt;
      cache, currentVersion, rotating := map[], 1, false;
      new;
      var key := DeriveKey(1);
      cache := cache[1 := key];
      if deviceSalt.Some? {
        salt := deviceSalt.value;
        cache := map[];
        key := DeriveKey(currentVersion);
        cache := cache[currentVersion := key];
      }
    }

    method DeriveKey(version: nat) returns (key: KeyPair)
      requires BlockSized(hmac)
      ensures key == Derived(version)
    {
      var prk := hmac(salt, masterKey);
      var okm := HkdfExpand(hmac, prk, Info(context, version));
      key := Split(okm[..]);
    }

    /** Cached or not, the answer is the fresh derivation: extracted with the salt as the key and the master key as the
        message, and expanded to two blocks, as sections 2.2 and 2.3 of RFC 5869 say. */
    method GetKey(version: nat) returns (key: KeyPair)
      requires Valid()
      modifies this`cache
      ensures Valid() && key == Derived(version) && cache == old(cache)[version := key]
      ensures var prk, info := hmac(salt, masterKey), Info(context, version);
              key.key1 == hmac(prk, info + [1]) && key.key2 == hmac(prk, key.key1 + info + [2])
    {
      TwoBlocks(hmac, hmac(salt, masterKey), Info(context, version));
      if version !in cache {
        var derived := DeriveKey(version);
        cache := cache[version := derived];
      }
      key := cache[version];
    }

    /** Versions only grow, and keys of older versions stay what they were. */
    method Rotate() returns (r: Option<nat>)
      requires Valid()
      modifies this`rotating, this`currentVersion, this`cache
      ensures Valid() && forall v :: Derived(v) == old(Derived(v))
      ensures old(rotating) ==> r == None && currentVersion == old(currentVersion) && cache == old(cache) && rotating
      ensures !old(rotating) ==> r == Some(currentVersion) && currentVersion == old(currentVersion) + 1 && rotating && currentVersion in cache
    {
      if rotating { return None; }
      rotating := true;
      currentVersion := currentVersion + 1;
      var key := DeriveKey(currentVersion);
      cache := cache[currentVersion := key];
      r := Some(currentVersion);
    }

    method CompleteRotation()
      requires Valid()
      modifies this`rotating
      ensures Valid() && !rotating
    {
      rotating := false;
    }

    method ClearCache()
      requires Valid()
      modifies this`cache
      ensures Valid() && cache == map[]
    {
      cache := map[];
    }
  }

  // ---------------------------------------------------------------- the authentication tag

  datatype Metadata = Metadata(
    version: Option<nat>,     // u16
    keyVersion: Option<nat>,  // u32
    tweak: Option<Bytes>,     // 16 bytes
    tag: Option<Bytes>,
    length: Option<nat>)      // u32

  predicate InRange(m: Metadata) {
    && (m.version.Some? ==> m.version.value < Power256(2))
    && (m.keyVersion.Some? ==> m.keyVersion.value < Power256(4))
    && (m.tweak.Some? ==> |m.tweak.value| == 16)
    && (m.length.Some? ==> m.length.value < Power256(4))
  }

  /** The fields one after the other; absent ones are skipped, and the tag is not part of it. */
  function Serialized(m: Metadata): Bytes {
    (if m.version.Some? then LittleEndian(m.version.value, 2) else []) +
    (if m.keyVersion.Some? then LittleEndian(m.keyVersion.value, 4) else []) +
    (if m.tweak.Some? then m.tweak.value else []) +
    (if m.length.Some? then LittleEndian(m.length.value, 4) else [])
  }

  method SerializeMetadata(m: Metadata) returns (bytes: Bytes)
    ensures bytes == Serialized(m)
  {
    bytes := [];
    if m.version.Some? { bytes := bytes + LittleEndian(m.version.value, 2); }
    if m.keyVersion.Some? { bytes := bytes + LittleEndian(m.keyVersion.value, 4); }
    if m.tweak.Some? { bytes := bytes + m.tweak.value; }
    if m.length.Some? { bytes := bytes + LittleEndian(m.length.value, 4); }
  }

  type KeyedHash = (KeyPair, Bytes) -> Bytes

  method ComputeMac(hash: KeyedHash, keys: KeyPair, ciphertext: Bytes, m: Metadata) returns (tag: Bytes)
    ensures tag == hash(keys, ciphertext + Serialized(m))
  {
    var metadata := SerializeMetadata(m);
    tag := hash(keys, ciphertext + metadata);
  }

  datatype Verdict = Accepted | MissingTag | Mismatch

  /** Accepts exactly the tag that is computed over the same ciphertext and metadata. */
  method VerifyMac(hash: KeyedHash, keys: KeyPair, ciphertext: Bytes, m: Metadata) returns (v: Verdict)
    ensures v == if m.tag.None? then MissingTag
                 else if m.tag.value == hash(keys, ciphertext + Serialized(m.(tag := None))) then Accepted else Mismatch
  {
    if m.tag.None? { return MissingTag; }
    var computed := ComputeMac(hash, keys, ciphertext, m.(tag := None));
    v := if m.tag.value == computed then Accepted else Mismatch;
  }

  /** Every tag that was computed is accepted. */
  method TagAccepted(hash: KeyedHash, keys: KeyPair, ciphertext: Bytes, m: Metadata) returns (v: Verdict)
    ensures v == Accepted
  {
    var tag := ComputeMac(hash, keys, ciphertext, m);
    assert Serialized(m.(tag := None)) == Serialized(m);
    v := VerifyMac(hash, keys, ciphertext, m.(tag := Some(tag)));
  }

  /** Which fields a record has. */
  datatype Pattern = Pattern(version: bool, keyVersion: bool, tweak: bool, length: bool)

  predicate Has(m: Metadata, p: Pattern) {
    (m.version.Some? <==> p.version) && (m.keyVersion.Some? <==> p.keyVersion) && (m.tweak.Some? <==> p.tweak) && (m.length.Some? <==> p.length)
  }

  function Width(p: Pattern): nat {
    (if p.version then 2 else 0) + (if p.keyVersion then 4 else 0) + (if p.tweak then 16 else 0) + (if p.length then 4 else 0)
  }

  /** Between records with the same fields present, the hashed bytes determine the ciphertext and every field. */
  lemma MacInputInjective(p: Pattern, c: Bytes, m: Metadata, c': Bytes, m': Metadata)
    requires Has(m, p) && Has(m', p) && InRange(m) && InRange(m') && c + Serialized(m) == c' + Serialized(m')
    ensures c == c' && m.(tag := None) == m'.(tag := None)
  {
    var s, s' := Serialized(m), Serialized(m');
    FieldsAt(m, p);
    FieldsAt(m', p);
    hide Serialized, LittleEndian;
    assert (c + s)[..|c|] == c && (c' + s')[..|c|] == c';
    assert (c + s)[|c|..] == s && (c' + s')[|c|..] == s';
    if p.version { LittleEndianInjective(m.version.value, m'.version.value, 2); }
    if p.keyVersion { LittleEndianInjective(m.keyVersion.value, m'.keyVersion.value, 4); }
    if p.length { LittleEndianInjective(m.length.value, m'.length.value, 4); }
  }

  lemma FieldsAt(m: Metadata, p: Pattern)
    requires Has(m, p) && InRange(m)
    ensures var s := Serialized(m);
            var a := if p.version then 2 else 0; var b := a + if p.keyVersion then 4 else 0; var c := b + if p.tweak then 16 else 0;
            && |s| == Width(p)
            && (p.version ==> s[..a] == LittleEndian(m.version.value, 2))
            && (p.keyVersion ==> s[a..b] == LittleEndian(m.keyVersion.value, 4))
            && (p.tweak ==> s[b..c] == m.tweak.value)
            && (p.length ==> s[c..] == LittleEndian(m.length.value, 4))
  {
  }

  function Zeros(n: nat): Bytes { seq(n, _ => 0) }

  lemma ZerosJoin(m: nat, n: nat)
    ensures Zeros(m) + Zeros(n) == Zeros(m + n)
  {
  }

  lemma {:induction false} ZeroBytes(n: nat)
    ensures LittleEndian(0, n) == Zeros(n)
  {
    if n > 0 { ZeroBytes(n - 1); }
  }

  function ZeroRecord(p: Pattern): Metadata {
    Metadata(if p.version then Some(0) else None, if p.keyVersion then Some(0) else None,
             if p.tweak then Some(Zeros(16)) else None, None, if p.length then Some(0) else None)
  }

  lemma ZeroRecordOk(p: Pattern)
    ensures var m := ZeroRecord(p); Has(m, p) && InRange(m) && Serialized(m) == Zeros(Width(p))
  {
    ZeroBytes(2);
    ZeroBytes(4);
    hide LittleEndian;
  }

  /** Absent fields leave no mark: whatever the two patterns, some ciphertext and record of the one pass for a
      ciphertext and record of the other. */
  lemma PatternsCollide(p: Pattern, q: Pattern) returns (c: Bytes, m: Metadata, c': Bytes, m': Metadata)
    ensures Has(m, p) && Has(m', q) && InRange(m) && InRange(m') && c + Serialized(m) == c' + Serialized(m')
  {
    m, m' := ZeroRecord(p), ZeroRecord(q);
    ZeroRecordOk(p);
    ZeroRecordOk(q);
    var a, b := Width(p), Width(q);
    hide Has, InRange, Serialized, Width, ZeroRecord, Zeros;
    if a < b { ZerosJoin(b - a, a); } else { ZerosJoin(a - b, b); }
    c, c' := if a < b then Zeros(b - a) else [], if b < a then Zeros(a - b) else [];
  }

  /** The same bytes are hashed only for the same ciphertext and fields. */
  ghost predicate Separates(p: Pattern, q: Pattern) {
    forall c, m, c', m' :: Has(m, p) && Has(m', q) && InRange(m) && InRange(m') && c + Serialized(m) == c' + Serialized(m') ==>
      c == c' && m.(tag := None) == m'.(tag := None)
  }

  /** The tag tells two records apart, whatever they and their ciphertexts are, exactly if the same fields are present
      in both. */
  lemma MacInputInjectiveIff(p: Pattern, q: Pattern)
    ensures Separates(p, q) <==> p == q
  {
    hide Serialized, InRange;
    if p == q {
      forall c, m, c', m' | Has(m, p) && Has(m', q) && InRange(m) && InRange(m') && c + Serialized(m) == c' + Serialized(m')
        ensures c == c' && m.(tag := None) == m'.(tag := None)
      {
        MacInputInjective(p, c, m, c', m');
      }
    } else {
      var c, m, c', m' := PatternsCollide(p, q);
      assert Has(m, p) && Has(m', q);
    }
  }
}
