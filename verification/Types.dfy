/** The values the storage engine moves around: segment and capsule records, policies, results. */
module Types {

  newtype byte = x: int | 0 <= x < 0x100
  type Bytes = seq<byte>
  type SegmentId = nat
  type CapsuleId = nat  // a UUID in the source; only equality matters

  datatype ContentHash = ContentHash(hex: string)

  const U32_MAX: nat := 0xFFFF_FFFF
  const SEGMENT_SIZE: nat := 4 * 1024 * 1024

  datatype Option<+T> = None | Some(value: T)

  datatype Error =
    | CompressionFailed
    | IntegrityFailure
    | InvalidCiphertextLength
    | SegmentNotFound
    | ReadPastEnd
    | ZeroRefCount
    | DeviceFailure
    | TransactionFinalized
    | CapsuleNotFound
    | CapsuleCollision
    | ExitedEarly
    | OutOfRange
    | KeyManagerMissing
    | SegmentVanished
    | Panicked  // an out-of-bounds slice

  datatype Result<+T> = Ok(value: T) | Err(error: Error)

  datatype Compression = Raw | Lz4(level: int) | Zstd(level: int)

  datatype Policy = Policy(compression: Compression, dedupe: bool, encrypt: bool)

  /** The label stored in `compression_algo`. */
  datatype Label = Unlabelled | Identity | CodedLz4(level: int) | CodedZstd(level: int)

  /** The four encryption fields of a segment; the pipeline sets all of them or none. */
  datatype Encryption = Encryption(version: nat, keyVersion: nat, tweak: Bytes, tag: Bytes)

  datatype Segment = Segment(
    id: SegmentId,
    offset: nat,
    len: nat,
    compressed: bool,
    algo: Label,
    contentHash: Option<ContentHash>,
    refCount: nat,
    deduplicated: bool,
    accessCount: nat,
    encryption: Option<Encryption>)

  datatype Capsule = Capsule(size: nat, segments: seq<SegmentId>, policy: Policy)

  /** What the device does with one write: all of it, or `entries` whole buffers and `bytes` bytes of the next. */
  datatype Io = Good | Torn(entries: nat, bytes: nat)

  function Min(a: nat, b: nat): nat { if a <= b then a else b }

  /** Saturating increment of a u32 counter. */
  function SatInc(n: nat): nat { if n < U32_MAX then n + 1 else n }

  /** Truncation of a length to u32. */
  function AsU32(n: nat): nat { n % 0x1_0000_0000 }

  /** Quotient and remainder are unique. */
  lemma Division(n: nat, d: nat, q: nat, r: nat)
    requires n == d * q + r && r < d
    ensures n / d == q && n % d == r
  {
    var p: int := n / d - q;
    assert d * p == r - n % d;
    assert p >= 1 ==> d * p >= d;
    assert p <= -1 ==> d * p + d <= 0;
  }
}
