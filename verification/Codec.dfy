/** Preparation of one chunk (compress, hash, encrypt, authenticate) and its reverse on the read path.
    Ciphers, codecs and hashes are uninterpreted: they are the fields of `Env`. */
module Codec {
  import opened Types

  datatype Algorithm = LZ4 | ZSTD

  datatype Env = Env(
    hash: Bytes -> ContentHash,
    encode: (Algorithm, int, Bytes) -> Option<Bytes>,
    decode: (Algorithm, Bytes) -> Option<Bytes>,
    highEntropy: Bytes -> bool,
    tweakOf: ContentHash -> Bytes,
    encipher: (nat, Bytes, Bytes) -> Bytes,  // key version, tweak, plaintext
    decipher: (nat, Bytes, Bytes) -> Bytes,
    mac: (nat, Bytes, nat, Bytes) -> Bytes)  // key version, ciphertext, format version, tweak

  const MIN_SECTOR_SIZE: nat := 16
  const ENTROPY_SAMPLE: nat := 1024

  /** The two assumptions on the uninterpreted parts, each named where it is used. */
  ghost predicate CollisionFree(env: Env) {
    forall a, b :: env.hash(a) == env.hash(b) ==> a == b
  }

  ghost predicate SoundCipher(env: Env) {
    forall v, t, x: Bytes :: |x| >= MIN_SECTOR_SIZE ==>
      && |env.encipher(v, t, x)| == |x|
      && env.decipher(v, t, env.encipher(v, t, x)) == x
  }

  datatype Packed = Packed(data: Bytes, compressed: bool, algo: Label)

  datatype Prepared = Prepared(
    hash: ContentHash, data: Bytes, compressed: bool, algo: Label, encryption: Option<Encryption>)

  function Clamp(level: int, lo: int, hi: int): int {
    if level < lo then lo else if level > hi then hi else level
  }

  function AlgorithmOf(c: Compression): Algorithm
    requires !c.Raw?
  {
    if c.Lz4? then LZ4 else ZSTD
  }

  function AdjustedLevel(c: Compression): int
    requires !c.Raw?
  {
    if c.Lz4? then Clamp(c.level, 1, 16) else Clamp(c.level, -5, 22)
  }

  function LabelOf(c: Compression): Label
    requires !c.Raw?
  {
    if c.Lz4? then CodedLz4(AdjustedLevel(c)) else CodedZstd(AdjustedLevel(c))
  }

  function AdaptiveCompress(env: Env, c: Compression, data: Bytes): Result<Packed> {
    if c.Raw? then Ok(Packed(data, false, Identity))
    else if |data| >= ENTROPY_SAMPLE && env.highEntropy(data[..ENTROPY_SAMPLE]) then Ok(Packed(data, false, Identity))
    else
      match env.encode(AlgorithmOf(c), AdjustedLevel(c), data)
      case None => Err(CompressionFailed)
      case Some(packed) =>
        if |packed| >= |data| then Ok(Packed(data, false, Identity))
        else if env.decode(AlgorithmOf(c), packed) == Some(data) then Ok(Packed(packed, true, LabelOf(c)))
        else Err(IntegrityFailure)
  }

  /** The codec is asked: there is one, and no sample of the input looks incompressible. */
  predicate Tried(env: Env, c: Compression, data: Bytes) {
    !c.Raw? && (|data| < ENTROPY_SAMPLE || !env.highEntropy(data[..ENTROPY_SAMPLE]))
  }

  function Frame(env: Env, c: Compression, data: Bytes): Option<Bytes>
    requires !c.Raw?
  {
    env.encode(AlgorithmOf(c), AdjustedLevel(c), data)
  }

  /** The codec gives a frame that is shorter than the input. */
  predicate Shrinks(env: Env, c: Compression, data: Bytes)
    requires !c.Raw?
  {
    Frame(env, c, data).Some? && |Frame(env, c, data).value| < |data|
  }

  predicate Restores(env: Env, c: Compression, data: Bytes)
    requires !c.Raw? && Frame(env, c, data).Some?
  {
    env.decode(AlgorithmOf(c), Frame(env, c, data).value) == Some(data)
  }

  /** The input is stored as the codec's frame. */
  predicate Compresses(env: Env, c: Compression, data: Bytes) {
    Tried(env, c, data) && Shrinks(env, c, data) && Restores(env, c, data)
  }

  /** The bytes that are stored for an input: the frame, or the input itself. */
  function Content(env: Env, c: Compression, data: Bytes): Bytes {
    if Compresses(env, c, data) then Frame(env, c, data).value else data
  }

  /** When an input is compressed, to what and under which label; when it is left alone; and when it is refused. */
  lemma CompressedIff(env: Env, c: Compression, data: Bytes)
    ensures var r := AdaptiveCompress(env, c, data);
            && (r.Ok? && r.value.compressed <==> Compresses(env, c, data))
            && (r.Ok? ==> r.value.data == Content(env, c, data) && |r.value.data| <= |data|)
            && (r.Ok? ==> r.value.algo == if r.value.compressed then LabelOf(c) else Identity)
            && (r == Err(CompressionFailed) <==> Tried(env, c, data) && Frame(env, c, data).None?)
            && (r == Err(IntegrityFailure) <==> Tried(env, c, data) && Shrinks(env, c, data) && !Restores(env, c, data))
            && (r.Ok? <==> (Tried(env, c, data) ==> Frame(env, c, data).Some? && (Shrinks(env, c, data) ==> Restores(env, c, data))))
  {
  }

  /** The level that the codec is given is the policy's, or the nearest that it accepts. */
  lemma LevelNearest(c: Compression, level: int)
    requires !c.Raw? && if c.Lz4? then 1 <= level <= 16 else -5 <= level <= 22
    ensures var l := AdjustedLevel(c);
            && (if c.Lz4? then 1 <= l <= 16 else -5 <= l <= 22)
            && (if l <= c.level then c.level - l else l - c.level) <= (if level <= c.level then c.level - level else level - c.level)
  {
  }

  function Prepare(env: Env, policy: Policy, keyVersion: Option<nat>, chunk: Bytes): Result<Prepared> {
    match AdaptiveCompress(env, policy.compression, chunk)
    case Err(e) => Err(e)
    case Ok(p) =>
      var h := env.hash(p.data);
      if !policy.encrypt || keyVersion.None? then Ok(Prepared(h, p.data, p.compressed, p.algo, None))
      else if |p.data| < MIN_SECTOR_SIZE then Err(InvalidCiphertextLength)
      else
        var v, tweak := keyVersion.value, env.tweakOf(h);
        var cipher := env.encipher(v, tweak, p.data);
        Ok(Prepared(h, cipher, p.compressed, p.algo, Some(Encryption(1, v, tweak, env.mac(v, cipher, 1, tweak)))))
  }

  /** Verify and decrypt the bytes of one stored segment. */
  function Decrypt(env: Env, encryption: Option<Encryption>, raw: Bytes): Result<Bytes> {
    match encryption
    case None => Ok(raw)
    case Some(e) =>
      if env.mac(e.keyVersion, raw, e.version, e.tweak) != e.tag then Err(IntegrityFailure)
      else if |raw| < MIN_SECTOR_SIZE then Err(InvalidCiphertextLength)
      else Ok(env.decipher(e.keyVersion, e.tweak, raw))
  }

  /** Decoding on the read path: the capsule's policy decides, and a decoder error means "was not compressed". */
  function Unpack(env: Env, c: Compression, data: Bytes): Bytes {
    if c.Raw? then data
    else match env.decode(AlgorithmOf(c), data)
         case Some(plain) => plain
         case None => data
  }

  /** The chunk is not itself a compressed frame of something else. */
  predicate RawSafe(env: Env, c: Compression, chunk: Bytes) {
    c.Raw? || env.decode(AlgorithmOf(c), chunk) in {None, Some(chunk)}
  }

  /** `p` decrypts to content that has its hash. */
  predicate Sealed(env: Env, p: Prepared) {
    && Decrypt(env, p.encryption, p.data).Ok?
    && env.hash(Decrypt(env, p.encryption, p.data).value) == p.hash
  }

  /** ... and that content unpacks to `chunk` under `c`. */
  predicate Faithful(env: Env, c: Compression, chunk: Bytes, p: Prepared) {
    Sealed(env, p) && Unpack(env, c, Decrypt(env, p.encryption, p.data).value) == chunk
  }

  lemma PreparedDecrypts(env: Env, policy: Policy, v: Option<nat>, chunk: Bytes)
    requires SoundCipher(env) && Prepare(env, policy, v, chunk).Ok?
    ensures AdaptiveCompress(env, policy.compression, chunk).Ok?
    ensures var p := Prepare(env, policy, v, chunk).value;
            var stored := AdaptiveCompress(env, policy.compression, chunk).value.data;
            Decrypt(env, p.encryption, p.data) == Ok(stored) && Sealed(env, p) && |p.data| == |stored| <= |chunk|
  {
    var stored := AdaptiveCompress(env, policy.compression, chunk).value.data;
    if policy.encrypt && v.Some? {
      var cipher := env.encipher(v.value, env.tweakOf(env.hash(stored)), stored);
      assert |cipher| == |stored|;
    }
  }

  /** The encryption that belongs to stored bytes `raw` of a segment whose plain content is `content`: none without a key
      or if the policy asks for none; else under version `v` with the tweak of the content's hash, and the tag over the
      bytes that are stored. */
  predicate SealedWith(env: Env, policy: Policy, v: Option<nat>, content: Bytes, e: Option<Encryption>, raw: Bytes) {
    && (e.Some? <==> policy.encrypt && v.Some?)
    && (e.None? ==> raw == content)
    && (e.Some? ==>
          && e.value.version == 1 && e.value.keyVersion == v.value && e.value.tweak == env.tweakOf(env.hash(content))
          && raw == env.encipher(v.value, e.value.tweak, content)
          && e.value.tag == env.mac(v.value, raw, 1, e.value.tweak))
  }

  /** What preparing a chunk makes of it, and when it fails. */
  lemma PreparedExact(env: Env, policy: Policy, v: Option<nat>, chunk: Bytes)
    ensures var r := Prepare(env, policy, v, chunk); var content := Content(env, policy.compression, chunk);
            && (r.Ok? ==>
                  && r.value.hash == env.hash(content) && SealedWith(env, policy, v, content, r.value.encryption, r.value.data)
                  && (r.value.compressed <==> Compresses(env, policy.compression, chunk))
                  && r.value.algo == if r.value.compressed then LabelOf(policy.compression) else Identity)
            && (r.Err? <==> (AdaptiveCompress(env, policy.compression, chunk).Err? || (policy.encrypt && v.Some? && |content| < MIN_SECTOR_SIZE)))
            && (r.Err? ==> r.error == if AdaptiveCompress(env, policy.compression, chunk).Err?
                                      then AdaptiveCompress(env, policy.compression, chunk).error else InvalidCiphertextLength)
  {
    CompressedIff(env, policy.compression, chunk);
    hide AdaptiveCompress, Compresses;
  }

  /** Exactly when a prepared chunk reads back as itself: the code guesses on the read path, so a chunk
      that was stored raw must not be a frame the decoder accepts with another meaning. */
  lemma PrepareFaithfulIff(env: Env, policy: Policy, v: Option<nat>, chunk: Bytes)
    requires SoundCipher(env) && Prepare(env, policy, v, chunk).Ok?
    ensures var p := Prepare(env, policy, v, chunk).value;
            Faithful(env, policy.compression, chunk, p) <==> p.compressed || RawSafe(env, policy.compression, chunk)
  {
    PreparedDecrypts(env, policy, v, chunk);
  }

  /** The hypothesis cannot be dropped: a codec under which the one-byte chunk [7] reads back empty. */
  lemma RawFrameMisread() returns (env: Env, policy: Policy, chunk: Bytes)
    ensures SoundCipher(env) && CollisionFree(env)
    ensures Prepare(env, policy, None, chunk).Ok? && !RawSafe(env, policy.compression, chunk)
    ensures !Faithful(env, policy.compression, chunk, Prepare(env, policy, None, chunk).value)
  {
    env := Env(HexOf, (a, l, x) => Some(x), (a, x) => Some([]), x => false, h => [],
               (v, t, x) => x, (v, t, x) => x, (v, c, n, t) => []);
    policy, chunk := Policy(Lz4(1), true, false), [7];
    forall a, b | env.hash(a) == env.hash(b) ensures a == b { HexInjective(a, b); }
  }

  function HexOf(x: Bytes): ContentHash {
    ContentHash(seq(|x|, i requires 0 <= i < |x| => x[i] as char))
  }

  lemma HexInjective(a: Bytes, b: Bytes)
    requires HexOf(a) == HexOf(b)
    ensures a == b
  {
    assert |HexOf(a).hex| == |a| && |HexOf(b).hex| == |b|;
    forall i | 0 <= i < |a| ensures a[i] == b[i] {
      assert HexOf(a).hex[i] == a[i] as char && HexOf(b).hex[i] == b[i] as char;
    }
  }

  /** data.chunks(SEGMENT_SIZE) */
  function Chunks(data: Bytes): seq<Bytes> {
    if data == [] then []
    else if |data| <= SEGMENT_SIZE then [data]
    else [data[..SEGMENT_SIZE]] + Chunks(data[SEGMENT_SIZE..])
  }

  function Flatten(chunks: seq<Bytes>): Bytes {
    if chunks == [] then [] else Flatten(chunks[..|chunks| - 1]) + chunks[|chunks| - 1]
  }

  lemma {:induction false} FlattenCons(head: Bytes, tail: seq<Bytes>)
    ensures Flatten([head] + tail) == head + Flatten(tail)
  {
    if tail == [] {
      assert Flatten([head]) == Flatten([]) + head;
    } else {
      var init := tail[..|tail| - 1];
      FlattenCons(head, init);
      assert ([head] + tail)[..|tail|] == [head] + init;
    }
  }

  /** Lists of pieces of the same lengths are equal if what they make up is. */
  lemma {:induction false} FlattenInjective(a: seq<Bytes>, b: seq<Bytes>)
    requires |a| == |b| && (forall i :: 0 <= i < |a| ==> |a[i]| == |b[i]|) && Flatten(a) == Flatten(b)
    ensures a == b
  {
    if a != [] {
      var n := |a| - 1;
      var x, y := Flatten(a[..n]), Flatten(b[..n]);
      assert x == (x + a[n])[..|x|] && a[n] == (x + a[n])[|x|..];
      assert y == (y + b[n])[..|y|] && b[n] == (y + b[n])[|y|..];
      assert |x| == |Flatten(a)| - |a[n]| == |y|;
      FlattenInjective(a[..n], b[..n]);
      assert a == a[..n] + [a[n]] && b == b[..n] + [b[n]];
    }
  }

  lemma {:induction false} ChunksPartition(data: Bytes)
    ensures Flatten(Chunks(data)) == data
    ensures forall i :: 0 <= i < |Chunks(data)| ==> 0 < |Chunks(data)[i]| <= SEGMENT_SIZE
    ensures forall i :: 0 <= i < |Chunks(data)| - 1 ==> |Chunks(data)[i]| == SEGMENT_SIZE
    ensures Chunks(data) == [] <==> data == []
  {
    if data == [] {
    } else if |data| <= SEGMENT_SIZE {
      FlattenCons(data, []);
      assert Chunks(data) == [data] + [];
    } else {
      ChunksPartition(data[SEGMENT_SIZE..]);
      FlattenCons(data[..SEGMENT_SIZE], Chunks(data[SEGMENT_SIZE..]));
    }
  }
}
