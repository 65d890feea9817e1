/** The trait-based pipeline over the in-memory backend, with its mark-and-sweep collector. */
module Modular {
  import opened Types
  import opened Codec
  import opened Registry
  import opened Layout

  /** Backend and catalog together. */
  datatype Mod = Mod(
    meta: map<SegmentId, Segment>,
    data: map<SegmentId, Bytes>,
    capsules: map<CapsuleId, Capsule>,
    content: map<ContentHash, SegmentId>,
    next: nat)

  // ---------------------------------------------------------------- reading

  /** A segment's own record says how to decode it. */
  function PlainOf(env: Env, s: Segment, raw: Bytes): Option<Bytes> {
    if !s.compressed then Some(raw)
    else match s.algo
         case CodedLz4(_) => env.decode(LZ4, raw)
         case CodedZstd(_) => env.decode(ZSTD, raw)
         case Identity => Some(raw)
         case Unlabelled => None
  }

  function ReadSegment(env: Env, m: Mod, id: SegmentId): Option<Bytes> {
    if id in m.meta && id in m.data then PlainOf(env, m.meta[id], m.data[id]) else None
  }

  function Joined(a: Option<Bytes>, b: Option<Bytes>): Option<Bytes> {
    if a.Some? && b.Some? then Some(a.value + b.value) else None
  }

  function ReadAll(env: Env, m: Mod, ids: seq<SegmentId>): Option<Bytes> {
    if ids == [] then Some([]) else Joined(ReadAll(env, m, ids[..|ids| - 1]), ReadSegment(env, m, ids[|ids| - 1]))
  }

  /** Segments present in both read alike. */
  predicate Keeps(m: Mod, m': Mod) {
    forall id :: id in m.meta && id in m.data && id in m'.meta ==>
      && id in m'.data && m'.data[id] == m.data[id]
      && m'.meta[id].compressed == m.meta[id].compressed && m'.meta[id].algo == m.meta[id].algo
  }

  // ---------------------------------------------------------------- the invariant

  /** Every count is the number of occurrences in capsules (`refs`), plus what unfinished or failed operations
      hold (`f`). */
  ghost predicate Counts(meta: map<SegmentId, Segment>, refs: multiset<SegmentId>, f: multiset<SegmentId>) {
    && (forall id :: id in meta ==> meta[id].refCount == refs[id] + f[id])
    && forall id :: id in refs || id in f ==> id in meta
  }

  ghost predicate Records(env: Env, meta: map<SegmentId, Segment>, data: map<SegmentId, Bytes>, next: nat) {
    && (forall id :: id in meta <==> id in data)
    && forall id :: id in meta ==> RecordOk(env, meta[id], data[id]) && id < next
  }

  predicate RecordOk(env: Env, s: Segment, raw: Bytes) {
    s.refCount > 0 && (s.deduplicated <==> s.refCount > 1) && s.contentHash == Some(env.hash(raw))
  }

  /** Every content entry names a live segment with that hash. */
  predicate Listed(meta: map<SegmentId, Segment>, content: map<ContentHash, SegmentId>) {
    forall h :: h in content ==> content[h] in meta && meta[content[h]].contentHash == Some(h)
  }

  ghost predicate Exact(env: Env, m: Mod, f: multiset<SegmentId>) {
    Counts(m.meta, Refs(m.capsules), f) && Records(env, m.meta, m.data, m.next) && Listed(m.meta, m.content)
  }

  // ---------------------------------------------------------------- the steps of a write

  function Bumped(s: Segment): Segment { s.(refCount := s.refCount + 1, deduplicated := s.refCount + 1 > 1) }

  function Hit(m: Mod, id: SegmentId): Mod
    requires id in m.meta
  {
    m.(meta := m.meta[id := Bumped(m.meta[id])])
  }

  function NewSegment(id: SegmentId, p: Packed, h: ContentHash): Segment {
    Segment(id, 0, AsU32(|p.data|), p.compressed, p.algo, Some(h), 1, false, 0, None)
  }

  function Miss(m: Mod, p: Packed, h: ContentHash): Mod {
    m.(meta := m.meta[m.next := NewSegment(m.next, p, h)], data := m.data[m.next := p.data],
       content := m.content[h := m.next], next := m.next + 1)
  }

  lemma HitOk(env: Env, m: Mod, f: multiset<SegmentId>, id: SegmentId)
    requires Exact(env, m, f) && id in m.meta
    ensures Exact(env, Hit(m, id), f + multiset{id}) && Keeps(m, Hit(m, id))
  {
    hide Refs, RecordOk, Counts, Records, Listed;
    SetCounts(m.meta, Refs(m.capsules), f, id, Bumped(m.meta[id]));
    HitRecords(env, m, id);
    SetListed(m.meta, m.content, id, Bumped(m.meta[id]));
    SameKeys(env, m, f);
  }

  /** One more occurrence of a segment, or the first of a new one. */
  lemma SetCounts(meta: map<SegmentId, Segment>, refs: multiset<SegmentId>, f: multiset<SegmentId>, id: SegmentId, s: Segment)
    requires Counts(meta, refs, f) && s.refCount == (if id in meta then meta[id].refCount else 0) + 1
    ensures Counts(meta[id := s], refs, f + multiset{id})
  {
    if id !in meta { assert refs[id] == 0 && f[id] == 0; }
  }

  lemma SetListed(meta: map<SegmentId, Segment>, content: map<ContentHash, SegmentId>, id: SegmentId, s: Segment)
    requires Listed(meta, content) && (id in meta ==> s.contentHash == meta[id].contentHash)
    ensures Listed(meta[id := s], content)
  {
  }

  lemma HitRecords(env: Env, m: Mod, id: SegmentId)
    requires Records(env, m.meta, m.data, m.next) && id in m.meta
    ensures var m' := Hit(m, id); Records(env, m'.meta, m'.data, m'.next)
  {
    assert RecordOk(env, m.meta[id], m.data[id]);
  }

  lemma MissOk(env: Env, m: Mod, f: multiset<SegmentId>, p: Packed)
    requires Exact(env, m, f)
    ensures m.next !in m.meta
    ensures var m' := Miss(m, p, env.hash(p.data)); Exact(env, m', f + multiset{m.next}) && Keeps(m, m')
  {
    hide Refs, RecordOk, Counts, Records, Listed;
    MissRecords(env, m, p);
    var s := NewSegment(m.next, p, env.hash(p.data));
    SetCounts(m.meta, Refs(m.capsules), f, m.next, s);
    SetListed(m.meta, m.content, m.next, s);
    AddListed(m.meta[m.next := s], m.content, env.hash(p.data), m.next);
    SameKeys(env, m, f);
  }

  lemma AddListed(meta: map<SegmentId, Segment>, content: map<ContentHash, SegmentId>, h: ContentHash, id: SegmentId)
    requires Listed(meta, content) && id in meta && meta[id].contentHash == Some(h)
    ensures Listed(meta, content[h := id])
  {
  }

  lemma MissRecords(env: Env, m: Mod, p: Packed)
    requires Records(env, m.meta, m.data, m.next)
    ensures m.next !in m.meta
    ensures var m' := Miss(m, p, env.hash(p.data)); Records(env, m'.meta, m'.data, m'.next)
  {
    NewOk(env, m.next, p);
    hide RecordOk;
  }

  lemma NewOk(env: Env, id: SegmentId, p: Packed)
    ensures RecordOk(env, NewSegment(id, p, env.hash(p.data)), p.data)
  {
  }

  lemma CreateOk(env: Env, m: Mod, f: multiset<SegmentId>, cid: CapsuleId, c: Capsule)
    requires Exact(env, m, f + multiset(c.segments)) && cid !in m.capsules
    ensures Exact(env, m.(capsules := m.capsules[cid := c]), f)
  {
    RefsCreate(m.capsules, cid, c);
    hide Refs, Records, Listed;
  }

  // ---------------------------------------------------------------- the steps of a delete

  /** One occurrence less: the last one takes the segment and its content entry away. */
  function Release(m: Mod, id: SegmentId): Mod
    requires id in m.meta
  {
    var s := m.meta[id];
    if s.refCount > 1 then m.(meta := m.meta[id := s.(refCount := s.refCount - 1, deduplicated := s.refCount - 1 > 1)])
    else
      m.(meta := m.meta - {id}, data := m.data - {id},
         content := if s.contentHash.Some? then Unlisted(m.content, s.contentHash.value, id) else m.content)
  }

  function Unlisted(content: map<ContentHash, SegmentId>, h: ContentHash, id: SegmentId): map<ContentHash, SegmentId> {
    if h in content && content[h] == id then content - {h} else content
  }

  lemma ReleaseOk(env: Env, m: Mod, f: multiset<SegmentId>, id: SegmentId)
    requires Exact(env, m, f) && id in f
    ensures id in m.meta && Exact(env, Release(m, id), f - multiset{id}) && Keeps(m, Release(m, id))
    ensures Release(m, id).meta.Keys <= m.meta.Keys
  {
    hide Refs, RecordOk, Counts, Records, Listed;
    HeldIsLive(m.meta, Refs(m.capsules), f, id);
    ReleaseCounts(m, Refs(m.capsules), f, id);
    ReleaseRecords(env, m, id);
    ReleaseListed(m, id);
    SameKeys(env, m, f);
  }

  lemma HeldIsLive(meta: map<SegmentId, Segment>, refs: multiset<SegmentId>, f: multiset<SegmentId>, id: SegmentId)
    requires Counts(meta, refs, f) && id in f
    ensures id in meta
  {
  }

  lemma ReleaseCounts(m: Mod, refs: multiset<SegmentId>, f: multiset<SegmentId>, id: SegmentId)
    requires Counts(m.meta, refs, f) && id in f && id in m.meta
    ensures Counts(Release(m, id).meta, refs, f - multiset{id})
  {
  }

  lemma ReleaseRecords(env: Env, m: Mod, id: SegmentId)
    requires Records(env, m.meta, m.data, m.next) && id in m.meta
    ensures var m' := Release(m, id); Records(env, m'.meta, m'.data, m'.next)
  {
    assert RecordOk(env, m.meta[id], m.data[id]);
  }

  lemma ReleaseListed(m: Mod, id: SegmentId)
    requires Listed(m.meta, m.content) && id in m.meta
    ensures var m' := Release(m, id); Listed(m'.meta, m'.content)
  {
  }

  /** Segments have data and data has segments. */
  lemma SameKeys(env: Env, m: Mod, f: multiset<SegmentId>)
    requires Exact(env, m, f)
    ensures m.meta.Keys == m.data.Keys
    ensures forall id :: id in m.meta ==> m.meta[id].refCount > 0
  {
    hide Refs;
    forall id | id in m.meta ensures m.meta[id].refCount > 0 { assert RecordOk(env, m.meta[id], m.data[id]); }
  }

  function Without(m: Mod, cid: CapsuleId): Mod { m.(capsules := m.capsules - {cid}) }

  lemma WithoutOk(env: Env, m: Mod, f: multiset<SegmentId>, cid: CapsuleId)
    requires Exact(env, m, f) && cid in m.capsules
    ensures Exact(env, Without(m, cid), f + multiset(m.capsules[cid].segments))
  {
    RefsSplit(m.capsules, cid);
    hide Refs, Records, Listed;
  }

  // ---------------------------------------------------------------- the collector

  /** Unreferenced, or at zero. */
  ghost function Garbage(m: Mod): set<SegmentId> {
    set id | id in m.meta && !(id in Refs(m.capsules) && m.meta[id].refCount > 0)
  }

  /** The garbage goes, and with it the content entries that name it. */
  ghost function Collected(m: Mod): Mod {
    var gone := Garbage(m);
    m.(meta := m.meta - gone, data := m.data - gone, content := map h | h in m.content && m.content[h] !in gone :: m.content[h])
  }

  /** No segment is listed under two hashes. */
  predicate OneHashEach(content: map<ContentHash, SegmentId>) {
    forall h, k :: h in content && k in content && content[h] == content[k] ==> h == k
  }

  /** The content index turned around; of several hashes of one segment it has one. */
  predicate Inverts(names: map<SegmentId, ContentHash>, content: map<ContentHash, SegmentId>) {
    && (forall h :: h in content ==> content[h] in names)
    && forall id :: id in names ==> names[id] in content && content[names[id]] == id
  }

  /** The content index once the segments `gone` have each taken their hash along. */
  function Dropped(content: map<ContentHash, SegmentId>, names: map<SegmentId, ContentHash>, gone: set<SegmentId>): map<ContentHash, SegmentId> {
    map h | h in content && !(content[h] in gone && content[h] in names && names[content[h]] == h) :: content[h]
  }

  lemma DroppedAll(content: map<ContentHash, SegmentId>, names: map<SegmentId, ContentHash>, gone: set<SegmentId>)
    requires Inverts(names, content) && OneHashEach(content)
    ensures Dropped(content, names, gone) == map h | h in content && content[h] !in gone :: content[h]
  {
  }

  lemma DroppedNone(content: map<ContentHash, SegmentId>, names: map<SegmentId, ContentHash>)
    ensures Dropped(content, names, {}) == content
  {
  }

  lemma DroppedMore(content: map<ContentHash, SegmentId>, names: map<SegmentId, ContentHash>, gone: set<SegmentId>, id: SegmentId)
    requires Inverts(names, content) && id !in gone
    ensures Dropped(content, names, gone + {id}) ==
            if id in names then Unlisted(Dropped(content, names, gone), names[id], id) else Dropped(content, names, gone)
  {
  }

  lemma ListedOnce(meta: map<SegmentId, Segment>, content: map<ContentHash, SegmentId>)
    requires Listed(meta, content)
    ensures OneHashEach(content)
  {
  }

  /** What is left is what capsules name and count; nothing left reads differently; a second run finds nothing. */
  lemma CollectLeaves(m: Mod)
    ensures var m' := Collected(m);
            && (forall id :: id in m'.meta <==> id in m.meta && id in Refs(m.capsules) && m.meta[id].refCount > 0)
            && Keeps(m, m') && Garbage(m') == {}
  {
    hide Refs;
  }

  /** Where the counts are exact, collecting leaves exactly the segments that capsules name, and a store in which
      nothing else is held is left alone. */
  lemma CollectOk(env: Env, m: Mod, f: multiset<SegmentId>)
    requires Exact(env, m, f)
    ensures var m' := Collected(m);
            && (forall id :: id in m'.meta <==> id in Refs(m.capsules))
            && Listed(m'.meta, m'.content) && (f == multiset{} ==> m' == m)
    ensures OneHashEach(m.content)
  {
    hide Refs, Records, Keeps, OneHashEach;
    ListedOnce(m.meta, m.content);
    SameKeys(env, m, f);
    var m' := Collected(m);
    forall id ensures id in m'.meta <==> id in Refs(m.capsules) { }
    if f == multiset{} {
      assert Garbage(m) == {};
      assert m'.meta == m.meta && m'.data == m.data && m'.content == m.content;
    }
  }

  // ---------------------------------------------------------------- round trip of one chunk

  /** What compressing gave decodes to the chunk, by the check that was made before it was returned. */
  lemma PackedReads(env: Env, c: Compression, chunk: Bytes, id: SegmentId, h: ContentHash)
    requires AdaptiveCompress(env, c, chunk).Ok?
    ensures var p := AdaptiveCompress(env, c, chunk).value; PlainOf(env, NewSegment(id, p, h), p.data) == Some(chunk)
  {
  }

  // ---------------------------------------------------------------- round trip of a write

  /** The hash under which a chunk is stored, if it can be compressed. */
  function KeyOf(env: Env, c: Compression, chunk: Bytes): Option<ContentHash> {
    match AdaptiveCompress(env, c, chunk)
    case Ok(p) => Some(env.hash(p.data))
    case Err(_) => None
  }

  predicate Storable(env: Env, c: Compression, chunks: seq<Bytes>) {
    forall i :: 0 <= i < |chunks| ==> KeyOf(env, c, chunks[i]).Some?
  }

  /** The first chunk that is stored under `h`. */
  function FirstUnder(env: Env, c: Compression, chunks: seq<Bytes>, h: ContentHash): (r: Option<nat>)
    ensures r.Some? ==> r.value < |chunks| && KeyOf(env, c, chunks[r.value]) == Some(h)
    ensures r.Some? ==> forall i :: 0 <= i < r.value ==> KeyOf(env, c, chunks[i]) != Some(h)
    ensures r.None? ==> forall i :: 0 <= i < |chunks| ==> KeyOf(env, c, chunks[i]) != Some(h)
  {
    if chunks == [] then None
    else match FirstUnder(env, c, chunks[..|chunks| - 1], h)
         case Some(i) => Some(i)
         case None => if KeyOf(env, c, chunks[|chunks| - 1]) == Some(h) then Some(|chunks| - 1) else None
  }

  /** What a chunk with hash `h` reads back as after `chunks` are written to `m`: the segment that was listed under
      `h` before, or else the first of the chunks that has this hash. */
  function Found(env: Env, m: Mod, c: Compression, chunks: seq<Bytes>, h: ContentHash): Option<Option<Bytes>> {
    if h in m.content then Some(ReadSegment(env, m, m.content[h]))
    else match FirstUnder(env, c, chunks, h)
         case None => None
         case Some(i) => Some(Some(chunks[i]))
  }

  function Echo(env: Env, m: Mod, c: Compression, chunks: seq<Bytes>, i: nat): Option<Bytes>
    requires i < |chunks|
  {
    match KeyOf(env, c, chunks[i])
    case None => None
    case Some(h) => match Found(env, m, c, chunks, h) case None => None case Some(plain) => plain
  }

  function Echoed(env: Env, m: Mod, c: Compression, chunks: seq<Bytes>, n: nat): Option<Bytes>
    requires n <= |chunks|
  {
    if n == 0 then Some([]) else Joined(Echoed(env, m, c, chunks, n - 1), Echo(env, m, c, chunks, n - 1))
  }

  /** Every chunk that shares its hash with a stored segment, or with an earlier chunk, reads back as itself. */
  predicate ReadsBack(env: Env, m: Mod, c: Compression, chunks: seq<Bytes>) {
    forall i :: 0 <= i < |chunks| ==> Echo(env, m, c, chunks, i) == Some(chunks[i])
  }

  /** What is read instead of a chunk is as long as the chunk. */
  predicate SameLengths(env: Env, m: Mod, c: Compression, chunks: seq<Bytes>) {
    forall i :: 0 <= i < |chunks| ==> Echo(env, m, c, chunks, i).Some? ==> |Echo(env, m, c, chunks, i).value| == |chunks[i]|
  }

  /** Chunk by chunk is enough for the whole; and it is needed unless a chunk reads back at another length. */
  lemma EchoedIff(env: Env, m: Mod, c: Compression, chunks: seq<Bytes>)
    ensures ReadsBack(env, m, c, chunks) ==> Echoed(env, m, c, chunks, |chunks|) == Some(Flatten(chunks))
    ensures SameLengths(env, m, c, chunks) ==>
      (ReadsBack(env, m, c, chunks) <==> Echoed(env, m, c, chunks, |chunks|) == Some(Flatten(chunks)))
  {
    assert chunks[..|chunks|] == chunks;
    if ReadsBack(env, m, c, chunks) { EchoedWhole(env, m, c, chunks, |chunks|); }
    if SameLengths(env, m, c, chunks) && Echoed(env, m, c, chunks, |chunks|) == Some(Flatten(chunks)) {
      EchoedParts(env, m, c, chunks, |chunks|);
    }
  }

  lemma {:induction false} EchoedWhole(env: Env, m: Mod, c: Compression, chunks: seq<Bytes>, n: nat)
    requires ReadsBack(env, m, c, chunks) && n <= |chunks|
    ensures Echoed(env, m, c, chunks, n) == Some(Flatten(chunks[..n]))
  {
    hide Echo;
    if n > 0 {
      EchoedWhole(env, m, c, chunks, n - 1);
      assert chunks[..n][..n - 1] == chunks[..n - 1];
    }
  }

  lemma {:induction false} EchoedParts(env: Env, m: Mod, c: Compression, chunks: seq<Bytes>, n: nat)
    requires SameLengths(env, m, c, chunks) && n <= |chunks|
    requires Echoed(env, m, c, chunks, n) == Some(Flatten(chunks[..n]))
    ensures forall i :: 0 <= i < n ==> Echo(env, m, c, chunks, i) == Some(chunks[i])
  {
    hide Echo;
    if n > 0 {
      assert chunks[..n][..n - 1] == chunks[..n - 1];
      var a, b := Echoed(env, m, c, chunks, n - 1).value, Echo(env, m, c, chunks, n - 1).value;
      var x, y := Flatten(chunks[..n - 1]), chunks[n - 1];
      assert a + b == x + y && |b| == |y| && |a| == |x|;
      assert a == (a + b)[..|a|] && b == (a + b)[|a|..];
      EchoedParts(env, m, c, chunks, n - 1);
    }
  }

  function Decoder(s: Segment): Label {
    if s.compressed then s.algo else Identity
  }

  /** The stored record has the same kind of label, or decodes to the chunk all the same. */
  predicate LabelServes(env: Env, s: Segment, p: Packed, chunk: Bytes) {
    || (Decoder(s).Identity? && !p.compressed)
    || (Decoder(s).CodedLz4? && p.compressed && p.algo.CodedLz4?) || (Decoder(s).CodedZstd? && p.compressed && p.algo.CodedZstd?)
    || PlainOf(env, s, p.data) == Some(chunk)
  }

  /** In the store's own terms: a chunk whose packed bytes are stored needs a label that serves it, and two chunks of
      the write with the same packed bytes, not stored before, must be equal. */
  lemma ReadsBackIff(env: Env, m: Mod, f: multiset<SegmentId>, c: Compression, chunks: seq<Bytes>)
    requires Exact(env, m, f) && CollisionFree(env) && Storable(env, c, chunks)
    ensures ReadsBack(env, m, c, chunks) <==>
      && (forall i :: 0 <= i < |chunks| ==> HitServes(env, m, c, chunks[i]))
      && (forall i, j :: 0 <= i < j < |chunks| ==> TwinsAgree(env, m, c, chunks[i], chunks[j]))
  {
    hide Exact, AdaptiveCompress, Echo, HitServes, TwinsAgree;
    forall i | 0 <= i < |chunks| ensures ReadsBack(env, m, c, chunks) ==> HitServes(env, m, c, chunks[i]) {
      if ReadsBack(env, m, c, chunks) { EchoServes(env, m, f, c, chunks, i); }
    }
    forall i, j | 0 <= i < j < |chunks| ensures ReadsBack(env, m, c, chunks) ==> TwinsAgree(env, m, c, chunks[i], chunks[j]) {
      if ReadsBack(env, m, c, chunks) { EchoTwins(env, m, c, chunks, i, j); }
    }
    if (forall i :: 0 <= i < |chunks| ==> HitServes(env, m, c, chunks[i]))
      && (forall i, j :: 0 <= i < j < |chunks| ==> TwinsAgree(env, m, c, chunks[i], chunks[j])) {
      forall j | 0 <= j < |chunks| ensures Echo(env, m, c, chunks, j) == Some(chunks[j]) { EchoOwn(env, m, f, c, chunks, j); }
    }
  }

  lemma EchoServes(env: Env, m: Mod, f: multiset<SegmentId>, c: Compression, chunks: seq<Bytes>, i: nat)
    requires Exact(env, m, f) && CollisionFree(env) && i < |chunks| && Echo(env, m, c, chunks, i) == Some(chunks[i])
    ensures HitServes(env, m, c, chunks[i])
  {
    hide Exact, AdaptiveCompress, LabelServes, ReadSegment, FirstUnder;
    if KeyOf(env, c, chunks[i]).Some? && KeyOf(env, c, chunks[i]).value in m.content { HitReadsIff(env, m, f, c, chunks[i]); }
  }

  lemma EchoTwins(env: Env, m: Mod, c: Compression, chunks: seq<Bytes>, i: nat, j: nat)
    requires i < j < |chunks| && Echo(env, m, c, chunks, i) == Some(chunks[i]) && Echo(env, m, c, chunks, j) == Some(chunks[j])
    ensures TwinsAgree(env, m, c, chunks[i], chunks[j])
  {
    hide KeyOf, Found;
  }

  lemma EchoOwn(env: Env, m: Mod, f: multiset<SegmentId>, c: Compression, chunks: seq<Bytes>, j: nat)
    requires Exact(env, m, f) && CollisionFree(env) && Storable(env, c, chunks) && j < |chunks| && HitServes(env, m, c, chunks[j])
    requires forall i :: 0 <= i < j ==> TwinsAgree(env, m, c, chunks[i], chunks[j])
    ensures Echo(env, m, c, chunks, j) == Some(chunks[j])
  {
    hide Exact, AdaptiveCompress, LabelServes, ReadSegment;
    var h := KeyOf(env, c, chunks[j]).value;
    if h in m.content {
      HitReadsIff(env, m, f, c, chunks[j]);
    } else {
      var i := FirstUnder(env, c, chunks, h).value;
      assert i < j ==> TwinsAgree(env, m, c, chunks[i], chunks[j]);
    }
  }

  predicate HitServes(env: Env, m: Mod, c: Compression, chunk: Bytes) {
    AdaptiveCompress(env, c, chunk).Ok? ==>
      var p := AdaptiveCompress(env, c, chunk).value;
      env.hash(p.data) in m.content && m.content[env.hash(p.data)] in m.meta ==>
        LabelServes(env, m.meta[m.content[env.hash(p.data)]], p, chunk)
  }

  predicate TwinsAgree(env: Env, m: Mod, c: Compression, a: Bytes, b: Bytes) {
    KeyOf(env, c, a) == KeyOf(env, c, b) && KeyOf(env, c, a).Some? && KeyOf(env, c, a).value !in m.content ==> a == b
  }

  /** A dedup hit keeps the stored record, and with it the first writer's label: the chunk reads back exactly if that
      label serves it. */
  lemma HitReadsIff(env: Env, m: Mod, f: multiset<SegmentId>, c: Compression, chunk: Bytes)
    requires Exact(env, m, f) && CollisionFree(env) && AdaptiveCompress(env, c, chunk).Ok?
    requires env.hash(AdaptiveCompress(env, c, chunk).value.data) in m.content
    ensures var p := AdaptiveCompress(env, c, chunk).value; var id := m.content[env.hash(p.data)];
            && id in m.meta && id in m.data && m.data[id] == p.data
            && (ReadSegment(env, m, id) == Some(chunk) <==> LabelServes(env, m.meta[id], p, chunk))
  {
    var p := AdaptiveCompress(env, c, chunk).value;
    var id := m.content[env.hash(p.data)];
    assert RecordOk(env, m.meta[id], m.data[id]);
    PackedReads(env, c, chunk, id, env.hash(p.data));
  }

  /** An uncompressed store that is only written without compression never misreads. */
  lemma RawReadsBack(env: Env, m: Mod, f: multiset<SegmentId>, chunks: seq<Bytes>)
    requires Exact(env, m, f) && CollisionFree(env) && forall id :: id in m.meta ==> !m.meta[id].compressed
    ensures Storable(env, Raw, chunks) && ReadsBack(env, m, Raw, chunks)
  {
    forall i | 0 <= i < |chunks| ensures HitServes(env, m, Raw, chunks[i]) { }
    ReadsBackIff(env, m, f, Raw, chunks);
  }

  /** Labels that disagree do lose data: a chunk that happens to equal the compressed form of an earlier one is
      found under the same hash, and reads back as the earlier chunk. The store is the one that storing that chunk makes. */
  lemma RawChunkReadsAsAnother() returns (env: Env, m: Mod, chunk: Bytes)
    ensures CollisionFree(env) && StoredAs(env, NothingStored(), m, 0, Lz4(1), [1, 1]) && Exact(env, m, multiset{0})
    ensures AdaptiveCompress(env, Lz4(1), chunk) == Ok(Packed(chunk, false, Identity))
    ensures var read := Echo(env, m, Lz4(1), [chunk], 0); read.Some? && read.value != chunk && !ReadsBack(env, m, Lz4(1), [chunk])
  {
    env := Env(HexOf, (a, l, x) => if x == [1, 1] then Some([7]) else Some(x), (a, x) => Some([1, 1]), x => false, h => [],
               (v, t, x) => x, (v, t, x) => x, (v, c, n, t) => []);
    forall a, b | env.hash(a) == env.hash(b) ensures a == b { HexInjective(a, b); }
    chunk := [7];
    m := Miss(NothingStored(), Packed(chunk, true, CodedLz4(1)), env.hash(chunk));
    assert RecordOk(env, m.meta[0], m.data[0]);
  }

  /** Two misread chunks can even make up for each other, if their lengths change. The store is the one that storing a
      chunk compressed and then another one raw makes. */
  lemma MisreadsCancel() returns (env: Env, m1: Mod, m: Mod, a: Bytes, b: Bytes)
    ensures CollisionFree(env) && StoredAs(env, NothingStored(), m1, 0, Lz4(1), [1, 2, 3]) && StoredAs(env, m1, m, 1, Raw, [4])
    ensures Exact(env, m, multiset{0, 1}) && Storable(env, Lz4(1), [a, b])
    ensures Echo(env, m, Lz4(1), [a, b], 0) != Some(a) && Echo(env, m, Lz4(1), [a, b], 1) != Some(b)
    ensures Echoed(env, m, Lz4(1), [a, b], 2) == Some(a + b)
  {
    env := Env(HexOf, (a, l, x) => if x == [3, 4] then Some([4]) else if x == [1, 2, 3] then Some([1, 2]) else Some(x),
               (a, x) => if x == [4] then Some([3, 4]) else Some([1, 2, 3]),
               x => false, h => [], (v, t, x) => x, (v, t, x) => x, (v, c, n, t) => []);
    forall a, b | env.hash(a) == env.hash(b) ensures a == b { HexInjective(a, b); }
    a, b := [1, 2], [3, 4];
    var packed: Bytes := [4];
    var h, k := env.hash(a), env.hash(packed);
    assert |h.hex| == 2 && |k.hex| == 1;
    m1 := Miss(NothingStored(), Packed(a, true, CodedLz4(1)), h);
    m := Miss(m1, Packed(packed, false, Identity), k);
    TwoStored(env, a, packed);
    assert KeyOf(env, Lz4(1), a) == Some(h) && KeyOf(env, Lz4(1), b) == Some(k);
    hide Exact;
    assert Echo(env, m, Lz4(1), [a, b], 0) == Some([1, 2, 3]) && Echo(env, m, Lz4(1), [a, b], 1) == Some([4]);
    JoinedUp(env, m, a, b, [1, 2, 3], [4]);
  }

  /** What storing one chunk compressed and another raw leaves. */
  lemma TwoStored(env: Env, a: Bytes, b: Bytes)
    requires env.hash(a) != env.hash(b)
    ensures Exact(env, Miss(Miss(NothingStored(), Packed(a, true, CodedLz4(1)), env.hash(a)), Packed(b, false, Identity), env.hash(b)), multiset{0, 1})
  {
    var m := NothingStored();
    assert Exact(env, m, multiset{});
    MissOk(env, m, multiset{}, Packed(a, true, CodedLz4(1)));
    MissOk(env, Miss(m, Packed(a, true, CodedLz4(1)), env.hash(a)), multiset{} + multiset{0}, Packed(b, false, Identity));
    assert multiset{} + multiset{0} + multiset{1} == multiset{0, 1};
    hide Exact;
  }

  lemma JoinedUp(env: Env, m: Mod, a: Bytes, b: Bytes, x: Bytes, y: Bytes)
    requires Echo(env, m, Lz4(1), [a, b], 0) == Some(x) && Echo(env, m, Lz4(1), [a, b], 1) == Some(y) && x + y == a + b
    ensures Echoed(env, m, Lz4(1), [a, b], 2) == Some(a + b)
  {
    hide Echo;
    var none: Bytes := [];
    assert none + x == x;
    assert Echoed(env, m, Lz4(1), [a, b], 0) == Some(none);
    assert Echoed(env, m, Lz4(1), [a, b], 1) == Some(x);
  }

  function NothingStored(): Mod { Mod(map[], map[], map[], map[], 0) }

  // ---------------------------------------------------------------- the write's loop

  /** The write so far: `ids` are held, and nothing that was there reads differently. */
  ghost predicate Held(env: Env, m0: Mod, m: Mod, f: multiset<SegmentId>, ids: seq<SegmentId>) {
    && Exact(env, m, f + multiset(ids)) && Keeps(m0, m) && m0.meta.Keys <= m.meta.Keys && m.capsules == m0.capsules
    && forall id :: id in ids ==> id in m.meta
  }

  function Shown(env: Env, m: Mod, h: ContentHash): Option<Option<Bytes>> {
    if h in m.content then Some(ReadSegment(env, m, m.content[h])) else None
  }

  /** The content index shows under every hash what the chunks so far leave there. */
  ghost predicate Listing(env: Env, m0: Mod, m: Mod, c: Compression, done: seq<Bytes>) {
    forall h :: Shown(env, m, h) == Found(env, m0, c, done, h)
  }

  /** Segment by segment, the write so far reads as `Echo` says. */
  ghost predicate Echoes(env: Env, m0: Mod, m: Mod, c: Compression, chunks: seq<Bytes>, ids: seq<SegmentId>) {
    && |ids| <= |chunks| && Storable(env, c, chunks[..|ids|]) && Listing(env, m0, m, c, chunks[..|ids|])
    && forall i :: 0 <= i < |ids| ==> ReadSegment(env, m, ids[i]) == Echo(env, m0, c, chunks, i)
  }

  /** The segment with the chunk's hash, or a new one with its packed bytes. */
  predicate StoredAs(env: Env, m: Mod, m': Mod, id: SegmentId, c: Compression, chunk: Bytes) {
    && AdaptiveCompress(env, c, chunk).Ok?
    && var p := AdaptiveCompress(env, c, chunk).value; var h := env.hash(p.data);
       if h in m.content then id == m.content[h] && id in m.meta && m' == Hit(m, id) else id == m.next && m' == Miss(m, p, h)
  }

  lemma HeldMore(env: Env, m0: Mod, m: Mod, m': Mod, f: multiset<SegmentId>, ids: seq<SegmentId>, id: SegmentId, c: Compression, chunk: Bytes)
    requires Held(env, m0, m, f, ids) && StoredAs(env, m, m', id, c, chunk)
    ensures Held(env, m0, m', f, ids + [id])
  {
    StoredOk(env, m, m', f + multiset(ids), id, c, chunk);
    hide Exact, StoredAs;
    assert f + multiset(ids + [id]) == f + multiset(ids) + multiset{id};
    KeepsTrans(env, m0, m, m', f + multiset(ids));
  }

  lemma KeepsTrans(env: Env, m0: Mod, m: Mod, m': Mod, f: multiset<SegmentId>)
    requires Exact(env, m, f) && Keeps(m0, m) && Keeps(m, m') && m0.meta.Keys <= m.meta.Keys <= m'.meta.Keys
    ensures Keeps(m0, m')
  {
  }

  /** Whether it is found or made, the segment is held once more and the rest stays. */
  lemma StoredOk(env: Env, m: Mod, m': Mod, f: multiset<SegmentId>, id: SegmentId, c: Compression, chunk: Bytes)
    requires Exact(env, m, f) && StoredAs(env, m, m', id, c, chunk)
    ensures Exact(env, m', f + multiset{id}) && Keeps(m, m') && m.meta.Keys <= m'.meta.Keys && m'.capsules == m.capsules
    ensures id in m'.meta && id in m'.data && m.meta.Keys <= m.data.Keys
  {
    hide Exact, Keeps, AdaptiveCompress;
    var p := AdaptiveCompress(env, c, chunk).value;
    if env.hash(p.data) in m.content { HitOk(env, m, f, id); } else { MissOk(env, m, f, p); }
    SameKeys(env, m, f);
    SameKeys(env, m', f + multiset{id});
  }

  lemma KeptReads(env: Env, m: Mod, m': Mod, id: SegmentId)
    requires Keeps(m, m') && id in m.meta && id in m.data && id in m'.meta
    ensures ReadSegment(env, m', id) == ReadSegment(env, m, id)
  {
  }

  /** The chunk just stored is shown under its hash; nothing else changes. */
  lemma ListingMore(env: Env, m0: Mod, m: Mod, m': Mod, f: multiset<SegmentId>, done: seq<Bytes>, id: SegmentId, c: Compression, chunk: Bytes)
    requires Exact(env, m, f) && Listing(env, m0, m, c, done) && StoredAs(env, m, m', id, c, chunk)
    ensures Listing(env, m0, m', c, done + [chunk])
    ensures Some(ReadSegment(env, m', id)) == Found(env, m0, c, done + [chunk], KeyOf(env, c, chunk).value)
  {
    var h := KeyOf(env, c, chunk).value;
    hide Exact, AdaptiveCompress, Found;
    forall k ensures Shown(env, m', k) == Found(env, m0, c, done + [chunk], k) {
      assert Shown(env, m, k) == Found(env, m0, c, done, k);
      ShownMore(env, m, m', f, id, c, chunk, k);
      FoundMore(env, m0, c, done, chunk, k);
    }
    assert Shown(env, m', h) == Some(ReadSegment(env, m', id)) by { hide StoredAs; ListsIt(env, m, m', id, c, chunk); }
  }

  lemma ListsIt(env: Env, m: Mod, m': Mod, id: SegmentId, c: Compression, chunk: Bytes)
    requires StoredAs(env, m, m', id, c, chunk)
    ensures KeyOf(env, c, chunk).Some? && KeyOf(env, c, chunk).value in m'.content && m'.content[KeyOf(env, c, chunk).value] == id
  {
    hide AdaptiveCompress;
  }

  lemma ShownMore(env: Env, m: Mod, m': Mod, f: multiset<SegmentId>, id: SegmentId, c: Compression, chunk: Bytes, k: ContentHash)
    requires Exact(env, m, f) && StoredAs(env, m, m', id, c, chunk)
    ensures Shown(env, m', k) ==
      if Shown(env, m, k).None? && KeyOf(env, c, chunk) == Some(k) then Some(Some(chunk)) else Shown(env, m, k)
  {
    hide Exact, AdaptiveCompress, PlainOf, Keeps, Hit, Miss;
    StoredOk(env, m, m', f, id, c, chunk);
    if k in m.content { ShownStays(env, m, m', f, k); }
    StoredContent(env, m, m', id, c, chunk);
  }

  /** Only a new segment is listed anew, and it shows the chunk. */
  lemma StoredContent(env: Env, m: Mod, m': Mod, id: SegmentId, c: Compression, chunk: Bytes)
    requires StoredAs(env, m, m', id, c, chunk)
    ensures var h := KeyOf(env, c, chunk).value;
            if h in m.content then m'.content == m.content
            else m'.content == m.content[h := id] && ReadSegment(env, m', id) == Some(chunk)
  {
    hide AdaptiveCompress, PlainOf;
    if KeyOf(env, c, chunk).value !in m.content { MissShows(env, m, c, chunk); }
  }

  lemma ShownStays(env: Env, m: Mod, m': Mod, f: multiset<SegmentId>, k: ContentHash)
    requires Exact(env, m, f) && Keeps(m, m') && m.meta.Keys <= m'.meta.Keys && k in m.content
    ensures m.content[k] in m.meta && ReadSegment(env, m', m.content[k]) == ReadSegment(env, m, m.content[k])
  {
    ContentLive(env, m, f);
    SameKeys(env, m, f);
    hide Exact;
    KeptReads(env, m, m', m.content[k]);
  }

  lemma MissShows(env: Env, m: Mod, c: Compression, chunk: Bytes)
    requires AdaptiveCompress(env, c, chunk).Ok?
    ensures var p := AdaptiveCompress(env, c, chunk).value; var m' := Miss(m, p, env.hash(p.data));
            && ReadSegment(env, m', m.next) == Some(chunk)
            && m'.content == m.content[env.hash(p.data) := m.next]
  {
    var p := AdaptiveCompress(env, c, chunk).value;
    PackedReads(env, c, chunk, m.next, env.hash(p.data));
    hide AdaptiveCompress, PlainOf;
  }

  lemma FoundMore(env: Env, m: Mod, c: Compression, done: seq<Bytes>, chunk: Bytes, h: ContentHash)
    ensures Found(env, m, c, done + [chunk], h) ==
      if Found(env, m, c, done, h).None? && KeyOf(env, c, chunk) == Some(h) then Some(Some(chunk)) else Found(env, m, c, done, h)
  {
    hide KeyOf;
    assert (done + [chunk])[..|done|] == done;
  }

  /** Later chunks do not change what is found. */
  lemma {:induction false} FoundStays(env: Env, m: Mod, c: Compression, chunks: seq<Bytes>, n: nat, h: ContentHash)
    requires n <= |chunks| && Found(env, m, c, chunks[..n], h).Some?
    ensures Found(env, m, c, chunks, h) == Found(env, m, c, chunks[..n], h)
    decreases |chunks| - n
  {
    if n < |chunks| {
      assert chunks[..n + 1] == chunks[..n] + [chunks[n]];
      FoundMore(env, m, c, chunks[..n], chunks[n], h);
      FoundStays(env, m, c, chunks, n + 1, h);
    } else {
      assert chunks[..n] == chunks;
    }
  }

  lemma EchoesMore(env: Env, m0: Mod, m: Mod, m': Mod, f: multiset<SegmentId>, c: Compression, chunks: seq<Bytes>, ids: seq<SegmentId>, id: SegmentId)
    requires Held(env, m0, m, f, ids) && Echoes(env, m0, m, c, chunks, ids) && |ids| < |chunks|
    requires StoredAs(env, m, m', id, c, chunks[|ids|])
    ensures Echoes(env, m0, m', c, chunks, ids + [id])
  {
    hide Exact, Keeps, ReadSegment, AdaptiveCompress, Listing, Found, FirstUnder;
    var n := |ids|;
    var chunk := chunks[n];
    StoredOk(env, m, m', f + multiset(ids), id, c, chunk);
    ListingMore(env, m0, m, m', f + multiset(ids), chunks[..n], id, c, chunk);
    assert chunks[..n + 1] == chunks[..n] + [chunk];
    var h := KeyOf(env, c, chunk).value;
    FoundStays(env, m0, c, chunks, n + 1, h);
    assert ReadSegment(env, m', id) == Echo(env, m0, c, chunks, n);
    forall i | 0 <= i < n ensures ReadSegment(env, m', ids[i]) == Echo(env, m0, c, chunks, i) {
      KeptReads(env, m, m', ids[i]);
    }
    assert Storable(env, c, chunks[..n + 1]);
  }

  lemma StartOk(env: Env, m: Mod, f: multiset<SegmentId>, c: Compression, chunks: seq<Bytes>)
    requires Exact(env, m, f)
    ensures Held(env, m, m, f, []) && Echoes(env, m, m, c, chunks, [])
  {
    hide Exact, KeyOf;
    SameKeys(env, m, f);
    assert f + multiset([]) == f;
    forall h ensures Shown(env, m, h) == Found(env, m, c, chunks[..0], h) { }
  }

  /** The chunks of a zone are the next ones of the whole list. */
  predicate ZoneCuts(zone: Zone, data: Bytes, chunks: seq<Bytes>, at: nat) {
    && at + |zone.segments| <= |chunks|
    && forall k :: 0 <= k < |zone.segments| ==>
         var s := zone.segments[k];
         s.offset + s.length <= |data| && chunks[at + k] == data[s.offset..s.offset + s.length]
  }

  /** Every segment of a plan lies inside the input. */
  lemma {:induction false} TilesInside(segs: seq<SegmentRef>, data: Bytes, size: nat, hash: Bytes -> ContentHash, end: nat)
    requires Tiles(segs, data, size, hash, end)
    ensures forall i :: 0 <= i < |segs| ==> segs[i].offset + segs[i].length <= |data|
  {
    if segs != [] { TilesInside(segs[..|segs| - 1], data, size, hash, segs[|segs| - 1].offset); }
  }

  lemma PlanCuts(zones: seq<Zone>, data: Bytes, size: nat, hash: Bytes -> ContentHash)
    requires Partition(zones, data, size, hash)
    ensures var chunks := Cuts(AllSegments(zones), data);
            |chunks| == |AllSegments(zones)| && forall z :: 0 <= z < |zones| ==> ZoneCuts(zones[z], data, chunks, |AllSegments(zones[..z])|)
  {
    var all := AllSegments(zones);
    InsideAndCut(zones, data, size, hash);
    hide Partition, AllSegments, Cuts, ZoneCuts, InsideCuts;
    forall z | 0 <= z < |zones| ensures ZoneCuts(zones[z], data, Cuts(all, data), |AllSegments(zones[..z])|) {
      ZoneAt(zones, z);
      CutsOf(all, data, Cuts(all, data), zones[z], |AllSegments(zones[..z])|);
    }
  }

  predicate InsideCuts(all: seq<SegmentRef>, data: Bytes, chunks: seq<Bytes>) {
    && |chunks| == |all|
    && forall i :: 0 <= i < |all| ==> all[i].offset + all[i].length <= |data| && chunks[i] == Piece(all[i], data)
  }

  lemma InsideAndCut(zones: seq<Zone>, data: Bytes, size: nat, hash: Bytes -> ContentHash)
    requires Partition(zones, data, size, hash)
    ensures InsideCuts(AllSegments(zones), data, Cuts(AllSegments(zones), data))
    ensures |Cuts(AllSegments(zones), data)| == |AllSegments(zones)|
  {
    TilesInside(AllSegments(zones), data, size, hash, |data|);
    CutsAt(AllSegments(zones), data);
    hide Tiles, AllSegments, Cuts, Piece;
  }

  lemma CutsOf(all: seq<SegmentRef>, data: Bytes, chunks: seq<Bytes>, zone: Zone, at: nat)
    requires at + |zone.segments| <= |all| && all[at..at + |zone.segments|] == zone.segments && InsideCuts(all, data, chunks)
    ensures ZoneCuts(zone, data, chunks, at)
  {
    forall k | 0 <= k < |zone.segments| ensures zone.segments[k] == all[at + k] { }
  }

  lemma {:induction false} ZoneAt(zones: seq<Zone>, z: nat)
    requires z < |zones|
    ensures var at := |AllSegments(zones[..z])|; var segs := zones[z].segments;
            at + |segs| <= |AllSegments(zones)| && AllSegments(zones)[at..at + |segs|] == segs
    ensures AllSegments(zones[..z + 1]) == AllSegments(zones[..z]) + zones[z].segments
    decreases |zones|
  {
    var n := |zones| - 1;
    assert zones[..z + 1][..z] == zones[..z];
    if z < n {
      ZoneAt(zones[..n], z);
      assert zones[..n][..z] == zones[..z];
    }
  }

  lemma {:induction false} EchoesRead(env: Env, m0: Mod, m: Mod, c: Compression, chunks: seq<Bytes>, ids: seq<SegmentId>, n: nat)
    requires n <= |ids| <= |chunks| && forall i :: 0 <= i < |ids| ==> ReadSegment(env, m, ids[i]) == Echo(env, m0, c, chunks, i)
    ensures ReadAll(env, m, ids[..n]) == Echoed(env, m0, c, chunks, n)
  {
    hide Echo, ReadSegment;
    if n > 0 {
      EchoesRead(env, m0, m, c, chunks, ids, n - 1);
      assert ids[..n][..n - 1] == ids[..n - 1];
    }
  }

  /** The capsule reads as the echo of its chunks. */
  lemma FinishOk(env: Env, m0: Mod, m: Mod, f: multiset<SegmentId>, c: Compression, chunks: seq<Bytes>, ids: seq<SegmentId>, cid: CapsuleId, capsule: Capsule)
    requires Held(env, m0, m, f, ids) && Echoes(env, m0, m, c, chunks, ids) && |ids| == |chunks| && capsule.segments == ids
    ensures var m' := m.(capsules := m.capsules[cid := capsule]);
            && Keeps(m0, m') && Storable(env, c, chunks)
            && (forall i :: 0 <= i < |ids| ==> ReadSegment(env, m', ids[i]) == Echo(env, m0, c, chunks, i))
            && ReadAll(env, m', ids) == Echoed(env, m0, c, chunks, |chunks|)
  {
    hide Exact, Echo, Echoed, Listing, Storable, PlainOf;
    assert chunks[..|ids|] == chunks && ids[..|ids|] == ids;
    EchoesRead(env, m0, m.(capsules := m.capsules[cid := capsule]), c, chunks, ids, |ids|);
  }

  lemma Chunked(data: Bytes, size: nat)
    requires size > 0
    ensures Flatten(Slices(data, size)) == data && Pieces(Slices(data, size), size) == Slices(data, size)
  {
    SlicesFlatten(data, size);
    SlicesShort(data, size);
    PiecesShort(Slices(data, size), size);
  }

  /** The segment holds what the codec makes of the chunk, under the label that says so. */
  predicate MadeFrom(env: Env, m: Mod, c: Compression, chunk: Bytes, id: SegmentId) {
    && id in m.meta && id in m.data && m.data[id] == Content(env, c, chunk)
    && (m.meta[id].compressed <==> Compresses(env, c, chunk))
    && m.meta[id].algo == (if m.meta[id].compressed then LabelOf(c) else Identity)
    && m.meta[id].contentHash == Some(env.hash(m.data[id])) && m.meta[id].id == id && m.meta[id].len == AsU32(|m.data[id]|)
  }

  /** Every new segment was made from a chunk. */
  ghost predicate AllMade(env: Env, m0: Mod, m: Mod, c: Compression, done: seq<Bytes>) {
    forall id :: id in m.meta && id !in m0.meta ==> exists j :: 0 <= j < |done| && MadeFrom(env, m, c, done[j], id)
  }

  lemma AllMadeMore(env: Env, m0: Mod, m: Mod, m': Mod, f: multiset<SegmentId>, id: SegmentId, c: Compression, done: seq<Bytes>, chunk: Bytes)
    requires Exact(env, m, f) && AllMade(env, m0, m, c, done) && StoredAs(env, m, m', id, c, chunk)
    ensures AllMade(env, m0, m', c, done + [chunk])
  {
    hide Exact, AdaptiveCompress, MadeFrom, StoredAs;
    forall i | i in m'.meta && i !in m0.meta ensures exists j :: 0 <= j < |done + [chunk]| && MadeFrom(env, m', c, (done + [chunk])[j], i) {
      if i in m.meta {
        var j :| 0 <= j < |done| && MadeFrom(env, m, c, done[j], i);
        MadeKept(env, m, m', f, id, c, done[j], chunk, i);
        assert MadeFrom(env, m', c, (done + [chunk])[j], i);
      } else {
        JustMade(env, m, m', id, c, chunk, i);
        assert MadeFrom(env, m', c, (done + [chunk])[|done|], i);
      }
    }
  }

  lemma MadeKept(env: Env, m: Mod, m': Mod, f: multiset<SegmentId>, id: SegmentId, c: Compression, made: Bytes, chunk: Bytes, i: SegmentId)
    requires Exact(env, m, f) && StoredAs(env, m, m', id, c, chunk) && MadeFrom(env, m, c, made, i)
    ensures MadeFrom(env, m', c, made, i)
  {
    MissRecords(env, m, AdaptiveCompress(env, c, chunk).value);
    hide Exact, AdaptiveCompress, Compresses, Content;
  }

  lemma JustMade(env: Env, m: Mod, m': Mod, id: SegmentId, c: Compression, chunk: Bytes, i: SegmentId)
    requires StoredAs(env, m, m', id, c, chunk) && i in m'.meta && i !in m.meta
    ensures MadeFrom(env, m', c, chunk, i)
  {
    CompressedIff(env, c, chunk);
    hide AdaptiveCompress, Compresses, Content;
  }

  lemma NothingMade(env: Env, m: Mod, c: Compression, done: seq<Bytes>)
    ensures AllMade(env, m, m, c, done)
  {
  }

  /** Capsules do not matter, and more chunks may be named. */
  lemma MadeStays(env: Env, m0: Mod, m: Mod, m': Mod, c: Compression, chunks: seq<Bytes>, n: nat)
    requires n <= |chunks| && AllMade(env, m0, m, c, chunks[..n]) && m'.meta == m.meta && m'.data == m.data
    ensures AllMade(env, m0, m', c, chunks)
  {
    hide Compresses, Content;
    forall id | id in m'.meta && id !in m0.meta ensures exists j :: 0 <= j < |chunks| && MadeFrom(env, m', c, chunks[j], id) {
      var j :| 0 <= j < n && MadeFrom(env, m, c, chunks[..n][j], id);
      assert MadeFrom(env, m', c, chunks[j], id);
    }
  }

  lemma HeldParts(env: Env, m0: Mod, m: Mod, f: multiset<SegmentId>, ids: seq<SegmentId>)
    requires Held(env, m0, m, f, ids)
    ensures Exact(env, m, f + multiset(ids)) && Keeps(m0, m) && m0.meta.Keys <= m.meta.Keys && m.capsules == m0.capsules
    ensures |f + multiset(ids)| - |f| == |ids|
  {
    hide Exact, Keeps;
  }

  /** The first `n` chunks can be stored and the next one fails with `e`. */
  predicate Failed(env: Env, c: Compression, chunks: seq<Bytes>, n: int, e: Error) {
    0 <= n < |chunks| && Storable(env, c, chunks[..n]) && AdaptiveCompress(env, c, chunks[n]) == Err(e)
  }

  lemma FailedHere(env: Env, m0: Mod, m: Mod, c: Compression, chunks: seq<Bytes>, ids: seq<SegmentId>, e: Error)
    requires Echoes(env, m0, m, c, chunks, ids) && |ids| < |chunks| && AdaptiveCompress(env, c, chunks[|ids|]) == Err(e)
    ensures Failed(env, c, chunks, |ids|, e)
  {
  }

  lemma FailedUnstorable(env: Env, c: Compression, chunks: seq<Bytes>, n: nat, e: Error)
    requires Failed(env, c, chunks, n, e)
    ensures !Storable(env, c, chunks)
  {
    hide AdaptiveCompress;
    assert KeyOf(env, c, chunks[n]).None?;
  }

  lemma NoZones(zones: seq<Zone>)
    ensures |AllSegments(zones[..0])| == 0
  {
  }

  // ---------------------------------------------------------------- the classes

  class InMemoryBackend {
    var segments: map<SegmentId, Bytes>
    var metadata: map<SegmentId, Segment>
  }

  class InMemoryTransaction {
    const inner: InMemoryBackend
    var stagedSegments: map<SegmentId, Bytes>
    var stagedMetadata: map<SegmentId, Segment>
    var deleted: seq<SegmentId>

    constructor (inner: InMemoryBackend)
      ensures this.inner == inner && stagedSegments == map[] && stagedMetadata == map[] && deleted == []
    {
      this.inner, stagedSegments, stagedMetadata, deleted := inner, map[], map[], [];
    }

    method Append(id: SegmentId, data: Bytes)
      modifies this
      ensures stagedSegments == old(stagedSegments)[id := data]
      ensures stagedMetadata == old(stagedMetadata) && deleted == old(deleted)
    {
      stagedSegments := stagedSegments[id := data];
    }

    method SetSegmentMetadata(id: SegmentId, s: Segment)
      modifies this
      ensures stagedMetadata == old(stagedMetadata)[id := s]
      ensures stagedSegments == old(stagedSegments) && deleted == old(deleted)
    {
      stagedMetadata := stagedMetadata[id := s];
    }

    method Delete(id: SegmentId)
      modifies this
      ensures deleted == old(deleted) + [id]
      ensures stagedSegments == old(stagedSegments) && stagedMetadata == old(stagedMetadata)
    {
      deleted := deleted + [id];
    }

    /** The staged entries come first, the deletions last; until then the backend has not changed. */
    method Commit()
      modifies inner
      ensures inner.segments == old(inner.segments) + stagedSegments - Members(deleted)
      ensures inner.metadata == old(inner.metadata) + stagedMetadata - Members(deleted)
    {
      inner.segments := inner.segments + stagedSegments;
      inner.metadata := inner.metadata + stagedMetadata;
      for i := 0 to |deleted|
        invariant inner.segments == old(inner.segments) + stagedSegments - Members(deleted[..i])
        invariant inner.metadata == old(inner.metadata) + stagedMetadata - Members(deleted[..i])
      {
        assert Members(deleted[..i + 1]) == Members(deleted[..i]) + {deleted[i]};
        inner.segments := inner.segments - {deleted[i]};
        inner.metadata := inner.metadata - {deleted[i]};
      }
      assert deleted[..|deleted|] == deleted;
    }
  }

  lemma KeepsItself(env: Env, m: Mod, f: multiset<SegmentId>)
    requires Exact(env, m, f)
    ensures Keeps(m, m) && m.meta.Keys <= m.meta.Keys
  {
  }

  lemma KeepsShrinks(m0: Mod, m: Mod, m': Mod)
    requires Keeps(m0, m) && Keeps(m, m') && m'.meta.Keys <= m.meta.Keys && m.meta.Keys <= m0.meta.Keys
    requires m.meta.Keys <= m.data.Keys
    ensures Keeps(m0, m')
  {
  }

  lemma KeepsCapsules(m0: Mod, m: Mod, m': Mod)
    requires Keeps(m0, m) && m'.meta == m.meta && m'.data == m.data
    ensures Keeps(m0, m')
  {
  }

  lemma ExactNames(env: Env, m: Mod, f: multiset<SegmentId>)
    requires Exact(env, m, f)
    ensures forall id :: id in Refs(m.capsules) ==> id in m.meta
  {
  }

  /** Releasing does not look at the capsules. */
  lemma ReleaseWithout(env: Env, m: Mod, cid: CapsuleId, id: SegmentId, f: multiset<SegmentId>)
    requires id in m.meta && Exact(env, Release(Without(m, cid), id), f) && Keeps(Without(m, cid), Release(Without(m, cid), id))
    ensures Without(Release(m, id), cid) == Release(Without(m, cid), id) && Keeps(m, Release(m, id))
    ensures Release(m, id).meta.Keys <= m.meta.Keys && Release(m, id).capsules == m.capsules
  {
    hide Exact;
  }

  lemma ContentLive(env: Env, m: Mod, f: multiset<SegmentId>)
    requires Exact(env, m, f)
    ensures forall h :: h in m.content ==> m.content[h] in m.meta
  {
  }

  lemma NoRefs()
    ensures Refs(map[]) == multiset{}
  {
  }

  lemma GarbageStarts(m: Mod)
    ensures Swept(Garbage(m), m.meta, {}, 0) && Within(m.meta, m.meta) && Members([]) == {}
  {
    hide Refs;
  }

  lemma MembersSnoc(s: seq<SegmentId>, id: SegmentId)
    ensures Members(s + [id]) == Members(s) + {id}
  {
    var t := s + [id];
    forall x ensures x in Members(t) <==> x in Members(s) + {id} {
      if x in Members(s) {
        var i :| 0 <= i < |s| && s[i] == x;
        assert t[i] == x;
      } else if x == id {
        assert t[|s|] == x;
      }
    }
  }

  predicate Within(todo: map<SegmentId, Segment>, meta: map<SegmentId, Segment>) {
    forall id :: id in todo ==> id in meta && todo[id] == meta[id]
  }

  /** `gone` is the garbage among the segments already looked at, `n` of them. */
  predicate Swept(garbage: set<SegmentId>, todo: map<SegmentId, Segment>, gone: set<SegmentId>, n: nat) {
    gone == garbage - todo.Keys && n == |gone|
  }

  /** One segment less to look at. */
  lemma LookedAt(m: Mod, garbage: set<SegmentId>, todo: map<SegmentId, Segment>, gone: set<SegmentId>, n: nat, id: SegmentId)
    requires id in todo && Within(todo, m.meta) && Swept(garbage, todo, gone, n)
    ensures id !in gone && |todo - {id}| < |todo| && Within(todo - {id}, m.meta)
    ensures if id in garbage then Swept(garbage, todo - {id}, gone + {id}, n + 1) else Swept(garbage, todo - {id}, gone, n)
  {
    assert (todo - {id}).Keys == todo.Keys - {id};
    assert |(todo - {id}).Keys| == |todo.Keys| - 1;
    if id !in garbage { assert garbage - (todo - {id}).Keys == gone; }
    else { assert garbage - (todo - {id}).Keys == gone + {id}; }
  }

  lemma AllSwept(garbage: set<SegmentId>, gone: set<SegmentId>, n: nat)
    requires Swept(garbage, map[], gone, n)
    ensures gone == garbage && n == |garbage|
  {
  }

  lemma GarbageIff(m: Mod, todo: map<SegmentId, Segment>, id: SegmentId)
    requires Within(todo, m.meta) && id in todo
    ensures id in Garbage(m) <==> !(id in Refs(m.capsules) && todo[id].refCount > 0)
  {
    hide Refs;
  }

  lemma CollectedParts(m: Mod)
    ensures var c := Collected(m);
            && c.meta == m.meta + map[] - Garbage(m) && c.data == m.data + map[] - Garbage(m)
            && c.capsules == m.capsules && c.next == m.next
            && c.content == map h | h in m.content && m.content[h] !in Garbage(m) :: m.content[h]
  {
    hide Garbage;
    assert m.meta + map[] == m.meta && m.data + map[] == m.data;
  }

  function Members(s: seq<SegmentId>): set<SegmentId> { set i | 0 <= i < |s| :: s[i] }

  class ModularPipeline {
    const storage: InMemoryBackend
    const env: Env
    var capsules: map<CapsuleId, Capsule>
    var content: map<ContentHash, SegmentId>
    var nextSegment: nat

    ghost function View(): Mod reads this, storage { Mod(storage.metadata, storage.segments, capsules, content, nextSegment) }

    constructor (storage: InMemoryBackend, env: Env)
      requires storage.metadata == map[] && storage.segments == map[]
      ensures this.storage == storage && this.env == env && View() == Mod(map[], map[], map[], map[], 0)
      ensures Exact(env, View(), multiset{})
    {
      this.storage, this.env := storage, env;
      capsules, content, nextSegment := map[], map[], 0;
    }

    /** Compress, hash, and reuse the segment with this hash or make a new one. */
    method StoreChunk(chunk: Bytes, c: Compression, ghost f: multiset<SegmentId>) returns (r: Result<SegmentId>)
      requires Exact(env, View(), f)
      modifies this, storage
      ensures r.Err? ==> View() == old(View()) && AdaptiveCompress(env, c, chunk) == Err(r.error)
      ensures r.Ok? ==> StoredAs(env, old(View()), View(), r.value, c, chunk)
    {
      hide Refs, AdaptiveCompress, Counts, Records, Exact;
      ContentLive(env, View(), f);
      var packed := AdaptiveCompress(env, c, chunk);
      if packed.Err? { return Err(packed.error); }
      var p := packed.value;
      var h := env.hash(p.data);
      if h in content {
        Reuse(content[h]);
        return Ok(content[h]);
      }
      var id := Make(p, h);
      r := Ok(id);
    }

    method Reuse(id: SegmentId)
      requires id in storage.metadata
      modifies storage
      ensures View() == Hit(old(View()), id)
    {
      var txn := new InMemoryTransaction(storage);
      txn.SetSegmentMetadata(id, Bumped(storage.metadata[id]));
      txn.Commit();
      assert storage.metadata == old(storage.metadata)[id := Bumped(old(storage.metadata)[id])];
      assert storage.segments == old(storage.segments);
    }

    method Make(p: Packed, h: ContentHash) returns (id: SegmentId)
      modifies this, storage
      ensures id == old(nextSegment) && View() == Miss(old(View()), p, h)
    {
      var txn := new InMemoryTransaction(storage);
      id := nextSegment;
      nextSegment := nextSegment + 1;
      txn.Append(id, p.data);
      txn.SetSegmentMetadata(id, NewSegment(id, p, h));
      txn.Commit();
      assert storage.metadata == old(storage.metadata)[id := NewSegment(id, p, h)];
      assert storage.segments == old(storage.segments)[id := p.data];
      content := content[h := id];
    }

    /** A write succeeds exactly if every chunk can be compressed. It keeps the counts exact: if it succeeds only the
        new capsule names its segments, if it fails it goes on holding those of the chunks before. Every new segment holds
        the codec's frame of a chunk where that is shorter and decodes, and else the chunk. Everything that was
        there reads as before. What the new capsule reads as is determined by the input and the store before: chunk by
        chunk it is the `Echo`, so it is `data` if every chunk reads back, and only then unless lengths differ. */
    method WriteCapsule(cid: CapsuleId, data: Bytes, policy: Policy, size: nat, ghost f: multiset<SegmentId>)
      returns (r: Result<CapsuleId>, ghost f': multiset<SegmentId>)
      requires size > 0 && Exact(env, View(), f) && cid !in capsules
      modifies this, storage
      ensures Exact(env, View(), f') && Keeps(old(View()), View()) && old(View()).meta.Keys <= View().meta.Keys
      ensures r.Ok? <==> Storable(env, policy.compression, Slices(data, size))
      ensures AllMade(env, old(View()), View(), policy.compression, Slices(data, size))
      ensures r.Err? ==> capsules == old(capsules) && f <= f' && Failed(env, policy.compression, Slices(data, size), |f'| - |f|, r.error)
      ensures r.Ok? ==> f' == f && cid in capsules && capsules == old(capsules)[cid := capsules[cid]]
      ensures r.Ok? ==> capsules[cid].size == |data| && capsules[cid].policy == policy
      ensures r.Ok? ==>
        var ids, chunks := capsules[cid].segments, Slices(data, size);
        && |ids| == |chunks|
        && (forall i :: 0 <= i < |ids| ==> ReadSegment(env, View(), ids[i]) == Echo(env, old(View()), policy.compression, chunks, i))
        && ReadAll(env, View(), ids) == Echoed(env, old(View()), policy.compression, chunks, |chunks|)
      ensures r.Ok? && ReadsBack(env, old(View()), policy.compression, Slices(data, size)) ==>
        ReadAll(env, View(), capsules[cid].segments) == Some(data)
      ensures r.Ok? && SameLengths(env, old(View()), policy.compression, Slices(data, size)) ==>
        (ReadAll(env, View(), capsules[cid].segments) == Some(data) <==> ReadsBack(env, old(View()), policy.compression, Slices(data, size)))
    {
      hide Exact, Keeps, Refs, Flatten, AdaptiveCompress, ReadAll, ReadSegment, PlainOf, Slices, Partition, AllSegments, Cuts,
           Held, Echoes, Storable, Failed, Echo, Echoed, ReadsBack, SameLengths, ZoneCuts, AllMade;
      ghost var m0, c, chunks := View(), policy.compression, Slices(data, size);
      Chunked(data, size);
      var zones := BuildPlan(Slices(data, size), size, env.hash);
      PlanCuts(zones, data, size, env.hash);
      var ids := [];
      StartOk(env, m0, f, c, chunks);
      NothingMade(env, m0, c, chunks[..0]);
      NoZones(zones);
      for z := 0 to |zones|
        invariant |ids| == |AllSegments(zones[..z])|
        invariant Held(env, m0, View(), f, ids) && Echoes(env, m0, View(), c, chunks, ids)
        invariant |ids| <= |chunks| && AllMade(env, m0, View(), c, chunks[..|ids|])
      {
        var more;
        more, ids := WriteZone(zones[z], data, policy.compression, m0, f, ids, chunks);
        if more.Err? {
          r := Err(more.error);
          f' := f + multiset(ids);
          HeldParts(env, m0, View(), f, ids);
          FailedUnstorable(env, c, chunks, |ids|, more.error);
          MadeStays(env, m0, View(), View(), c, chunks, |ids|);
          return;
        }
        ZoneAt(zones, z);
      }
      assert zones[..|zones|] == zones;
      var capsule := Capsule(|data|, ids, policy);
      HeldParts(env, m0, View(), f, ids);
      CreateOk(env, View(), f, cid, capsule);
      FinishOk(env, m0, View(), f, c, chunks, ids, cid, capsule);
      EchoedIff(env, m0, c, chunks);
      MadeStays(env, m0, View(), View().(capsules := capsules[cid := capsule]), c, chunks, |ids|);
      capsules := capsules[cid := capsule];
      r := Ok(cid);
      f' := f;
    }

    method WriteZone(zone: Zone, data: Bytes, c: Compression, ghost m0: Mod, ghost f: multiset<SegmentId>, ids0: seq<SegmentId>,
                     ghost chunks: seq<Bytes>)
      returns (r: Result<()>, ids: seq<SegmentId>)
      requires Held(env, m0, View(), f, ids0) && Echoes(env, m0, View(), c, chunks, ids0)
      requires ZoneCuts(zone, data, chunks, |ids0|) && AllMade(env, m0, View(), c, chunks[..|ids0|])
      modifies this, storage
      ensures Held(env, m0, View(), f, ids)
      ensures |ids| <= |chunks| && AllMade(env, m0, View(), c, chunks[..|ids|])
      ensures r.Ok? ==> |ids| == |ids0| + |zone.segments| && Echoes(env, m0, View(), c, chunks, ids)
      ensures r.Err? ==> Failed(env, c, chunks, |ids|, r.error)
    {
      hide Exact, Keeps, Refs, AdaptiveCompress, ReadAll, PlainOf, Held, Echoes, StoredAs, AllMade;
      ids := ids0;
      for k := 0 to |zone.segments|
        invariant |ids| == |ids0| + k && Held(env, m0, View(), f, ids) && Echoes(env, m0, View(), c, chunks, ids)
        invariant AllMade(env, m0, View(), c, chunks[..|ids|])
      {
        var s := zone.segments[k];
        var chunk := data[s.offset..s.offset + s.length];
        ghost var m := View();
        HeldParts(env, m0, m, f, ids);
        var stored := StoreChunk(chunk, c, f + multiset(ids));
        if stored.Err? {
          FailedHere(env, m0, m, c, chunks, ids, stored.error);
          return Err(stored.error), ids;
        }
        HeldMore(env, m0, m, View(), f, ids, stored.value, c, chunk);
        EchoesMore(env, m0, m, View(), f, c, chunks, ids, stored.value);
        AllMadeMore(env, m0, m, View(), f + multiset(ids), stored.value, c, chunks[..|ids|], chunk);
        assert chunks[..|ids| + 1] == chunks[..|ids|] + [chunk];
        ids := ids + [stored.value];
      }
      r := Ok(());
    }

    /** A delete gives back exactly the capsule's references: no other capsule loses a segment, and no count was
        short. */
    method DeleteCapsule(cid: CapsuleId, ghost f: multiset<SegmentId>) returns (r: Result<()>)
      requires Exact(env, View(), f)
      modifies this, storage
      ensures r == if cid in old(capsules) then Ok(()) else Err(CapsuleNotFound)
      ensures Exact(env, View(), f) && capsules == old(capsules) - {cid} && Keeps(old(View()), View())
      ensures forall id :: id in Refs(capsules) ==> id in View().meta
    {
      hide Exact, Keeps, Refs, Release;
      if cid !in capsules {
        assert capsules - {cid} == capsules;
        KeepsItself(env, View(), f);
        ExactNames(env, View(), f);
        return Err(CapsuleNotFound);
      }
      var ids := capsules[cid].segments;
      ghost var m0 := View();
      WithoutOk(env, m0, f, cid);
      KeepsItself(env, m0, f);
      assert ids[0..] == ids;
      for i := 0 to |ids|
        invariant capsules == m0.capsules && Keeps(m0, View())
        invariant Exact(env, Without(View(), cid), f + multiset(ids[i..]))
        invariant View().meta.Keys <= m0.meta.Keys
      {
        ghost var m := View();
        assert ids[i..] == [ids[i]] + ids[i + 1..];
        assert f + multiset(ids[i..]) - multiset{ids[i]} == f + multiset(ids[i + 1..]);
        ReleaseOk(env, Without(m, cid), f + multiset(ids[i..]), ids[i]);
        ReleaseOne(ids[i]);
        ReleaseWithout(env, m, cid, ids[i], f + multiset(ids[i + 1..]));
        SameKeys(env, Without(m, cid), f + multiset(ids[i..]));
        KeepsShrinks(m0, m, View());
      }
      assert f + multiset(ids[|ids|..]) == f;
      ghost var before := View();
      capsules := capsules - {cid};
      ExactNames(env, View(), f);
      KeepsCapsules(m0, before, View());
      r := Ok(());
    }

    method ReleaseOne(id: SegmentId)
      requires id in View().meta
      modifies this`content, storage
      ensures View() == Release(old(View()), id)
    {
      var metadata := storage.metadata[id];
      if metadata.refCount > 1 {
        var txn := new InMemoryTransaction(storage);
        txn.SetSegmentMetadata(id, metadata.(refCount := metadata.refCount - 1, deduplicated := metadata.refCount - 1 > 1));
        txn.Commit();
        assert storage.segments == View().data;
      } else {
        storage.segments := storage.segments - {id};
        storage.metadata := storage.metadata - {id};
        if metadata.contentHash.Some? { content := Unlisted(content, metadata.contentHash.value, id); }
      }
    }

    /** `garbage_collect`: mark what capsules name, stage the rest for deletion, in any order. It asks nothing of the
        counts. Every collected segment takes one hash out of the content index: the only one, where each has one. */
    method GarbageCollect() returns (reclaimed: nat)
      modifies this`content, storage
      ensures View() == Collected(old(View())).(content := content) && reclaimed == |Garbage(old(View()))|
      ensures exists names :: Inverts(names, old(content)) && content == Dropped(old(content), names, Garbage(old(View())))
      ensures OneHashEach(old(content)) ==> View() == Collected(old(View()))
    {
      hide Refs, Garbage, Collected, Members, Inverts, Dropped, OneHashEach;
      ghost var m0 := View();
      var referenced := Referenced();
      var names := ContentMap();
      var txn := new InMemoryTransaction(storage);
      GarbageStarts(m0);
      reclaimed := Sweep(referenced, names, txn, m0);
      txn.Commit();
      CollectedParts(m0);
      if OneHashEach(m0.content) { DroppedAll(m0.content, names, Garbage(m0)); }
    }

    /** The content index turned around, in any order. */
    method ContentMap() returns (names: map<SegmentId, ContentHash>)
      ensures Inverts(names, content)
    {
      names := map[];
      var todo := content;
      while todo != map[]
        invariant forall h :: h in todo ==> h in content && todo[h] == content[h]
        invariant forall h :: h in content && h !in todo ==> content[h] in names
        invariant forall id :: id in names ==> names[id] in content && content[names[id]] == id
        decreases |todo|
      {
        var h :| h in todo;
        names := names[content[h] := h];
        assert |(todo - {h}).Keys| == |todo.Keys - {h}|;
        todo := todo - {h};
      }
    }

    method Sweep(referenced: set<SegmentId>, names: map<SegmentId, ContentHash>, txn: InMemoryTransaction, ghost m0: Mod)
      returns (reclaimed: nat)
      requires View() == m0 && Inverts(names, content) && forall id :: id in referenced <==> id in Refs(m0.capsules)
      requires txn.inner == storage && txn.stagedSegments == map[] && txn.stagedMetadata == map[] && txn.deleted == []
      modifies this`content, txn
      ensures txn.stagedSegments == map[] && txn.stagedMetadata == map[]
      ensures Members(txn.deleted) == Garbage(m0) && content == Dropped(m0.content, names, Garbage(m0)) && reclaimed == |Garbage(m0)|
    {
      hide Refs, Garbage, Members, Inverts, Dropped, Swept, Within;
      var todo := storage.metadata;
      reclaimed := 0;
      GarbageStarts(m0);
      DroppedNone(m0.content, names);
      ghost var garbage, gone := Garbage(m0), {};
      while todo != map[]
        invariant txn.stagedSegments == map[] && txn.stagedMetadata == map[]
        invariant Within(todo, m0.meta) && Swept(garbage, todo, gone, reclaimed)
        invariant Members(txn.deleted) == gone && content == Dropped(m0.content, names, gone)
        decreases |todo|
      {
        var id :| id in todo;
        var metadata := todo[id];
        GarbageIff(m0, todo, id);
        LookedAt(m0, garbage, todo, gone, reclaimed, id);
        todo := todo - {id};
        if id in referenced && metadata.refCount > 0 { continue; }
        StageGarbage(id, names, txn, m0.content, gone);
        gone := gone + {id};
        reclaimed := reclaimed + 1;
      }
      AllSwept(garbage, gone, reclaimed);
    }

    method StageGarbage(id: SegmentId, names: map<SegmentId, ContentHash>, txn: InMemoryTransaction,
                        ghost content0: map<ContentHash, SegmentId>, ghost gone: set<SegmentId>)
      requires Inverts(names, content0) && id !in gone
      requires Members(txn.deleted) == gone && content == Dropped(content0, names, gone)
      modifies this`content, txn
      ensures txn.stagedSegments == old(txn.stagedSegments) && txn.stagedMetadata == old(txn.stagedMetadata)
      ensures Members(txn.deleted) == gone + {id} && content == Dropped(content0, names, gone + {id})
    {
      hide Inverts, Dropped;
      MembersSnoc(txn.deleted, id);
      DroppedMore(content0, names, gone, id);
      txn.Delete(id);
      if id in names { content := Unlisted(content, names[id], id); }
    }

    method Referenced() returns (ids: set<SegmentId>)
      ensures forall id :: id in ids <==> id in Refs(capsules)
    {
      hide Refs;
      ids := {};
      var todo := capsules;
      assert Refs(map[]) == multiset{} by { NoRefs(); }
      while todo != map[]
        invariant forall id :: id in ids || id in Refs(todo) <==> id in Refs(capsules)
        decreases |todo|
      {
        var cid :| cid in todo;
        RefsSplit(todo, cid);
        ids := ids + Members(todo[cid].segments);
        todo := todo - {cid};
      }
    }
  }
}
