/** Runs of allowed steps, and the two programs that need no transaction: the sequential write and the delete. */
module Programs {
  import opened Types
  import opened Codec
  import opened NvramSim
  import opened Registry
  import opened Store

  /** From `(st, f)` the steps are all allowed and lead to `(st', f')`. */
  ghost predicate Takes(env: Env, st: Store, f: multiset<SegmentId>, steps: seq<Step>, st': Store, f': multiset<SegmentId>) {
    AllAllowed(env, st, f, steps) && Run(st, steps) == st' && HeldAfter(st, f, steps) == f'
  }

  lemma TakesStep(env: Env, st: Store, f: multiset<SegmentId>, steps: seq<Step>, st1: Store, f1: multiset<SegmentId>, s: Step)
    requires Takes(env, st, f, steps, st1, f1) && Allowed(env, st1, f1, s)
    ensures Takes(env, st, f, steps + [s], Do(st1, s), Held(st1, f1, s))
  {
    assert (steps + [s])[..|steps|] == steps;
  }

  lemma TakesOne(env: Env, st: Store, f: multiset<SegmentId>, s: Step)
    requires Allowed(env, st, f, s)
    ensures Takes(env, st, f, [s], Do(st, s), Held(st, f, s))
  {
    TakesStep(env, st, f, [], st, f, s);
    assert [] + [s] == [s];
  }

  lemma TakesConcat(env: Env, st: Store, f: multiset<SegmentId>, a: seq<Step>, st1: Store, f1: multiset<SegmentId>,
                    b: seq<Step>, st2: Store, f2: multiset<SegmentId>)
    requires Takes(env, st, f, a, st1, f1) && Takes(env, st1, f1, b, st2, f2)
    ensures Takes(env, st, f, a + b, st2, f2)
  {
    RunConcat(st, a, b);
    HeldConcat(st, f, a, b);
    AllowedConcat(env, st, f, a, b);
  }

  /** No step creates or drops a capsule. */
  predicate Quiet(steps: seq<Step>) {
    forall s :: s in steps ==> !s.CreateStep? && !s.DropStep?
  }

  lemma {:induction false} QuietShows(env: Env, st: Store, f: multiset<SegmentId>, steps: seq<Step>, view: map<CapsuleId, Entry>)
    requires Inv(env, st, f) && AllAllowed(env, st, f, steps) && Quiet(steps) && Shows(env, st, view)
    ensures Shows(env, Run(st, steps), view) && Run(st, steps).reg.capsules == st.reg.capsules
  {
    if steps != [] {
      var before, s := steps[..|steps| - 1], steps[|steps| - 1];
      QuietShows(env, st, f, before, view);
      ProgramKeepsInv(env, st, f, before);
      var mid := Run(st, before);
      assert Do(mid, s).reg.capsules == mid.reg.capsules by { assert s in steps; }
      forall c | c in view ensures CapsuleBytes(env, Do(mid, s), c) == Ok(view[c].bytes) {
        StepKeepsReads(env, mid, HeldAfter(st, f, before), s, c);
      }
    }
  }

  /** The one step that adds a capsule adds exactly what its segments read. */
  lemma CreateShows(env: Env, st: Store, f: multiset<SegmentId>, cid: CapsuleId, c: Capsule, data: Bytes, view: map<CapsuleId, Entry>)
    requires Inv(env, st, f) && Allowed(env, st, f, CreateStep(cid, c)) && Shows(env, st, view)
    requires ReadSegments(env, st.log, c.policy.compression, c.segments) == Ok(data)
    ensures Shows(env, Do(st, CreateStep(cid, c)), view[cid := Entry(data, c.size)])
  {
    hide Inv, Allowed, ReadSegments;
    CreateIsNew(env, st, f, cid, c);
    var st' := Do(st, CreateStep(cid, c));
    var view' := view[cid := Entry(data, c.size)];
    forall d | d in view' ensures CapsuleBytes(env, st', d) == Ok(view'[d].bytes) {
      if d != cid { StepKeepsReads(env, st, f, CreateStep(cid, c), d); }
    }
  }

  lemma CreateAllowed(env: Env, st: Store, f: multiset<SegmentId>, cid: CapsuleId, c: Capsule)
    requires cid !in st.reg.capsules
    ensures Allowed(env, st, f + multiset(c.segments), CreateStep(cid, c))
  {
  }

  lemma CreateIsNew(env: Env, st: Store, f: multiset<SegmentId>, cid: CapsuleId, c: Capsule)
    requires Allowed(env, st, f, CreateStep(cid, c))
    ensures cid !in st.reg.capsules
  {
  }

  lemma DropShows(env: Env, st: Store, f: multiset<SegmentId>, cid: CapsuleId, view: map<CapsuleId, Entry>)
    requires Inv(env, st, f) && cid in st.reg.capsules && Shows(env, st, view)
    ensures Shows(env, Do(st, DropStep(cid)), view - {cid})
  {
    hide Inv, ReadSegments;
    forall d | d in view - {cid} ensures CapsuleBytes(env, Do(st, DropStep(cid)), d) == Ok(view[d].bytes) {
      StepKeepsReads(env, st, f, DropStep(cid), d);
    }
  }

  /** One more allowed step that neither creates nor drops a capsule. */
  lemma QuietStep(env: Env, st: Store, f: multiset<SegmentId>, steps: seq<Step>, st1: Store, held: multiset<SegmentId>, s: Step)
    requires Takes(env, st, f, steps, st1, held) && Inv(env, st1, held) && Quiet(steps)
    requires Allowed(env, st1, held, s) && !s.CreateStep? && !s.DropStep?
    ensures Takes(env, st, f, steps + [s], Do(st1, s), Held(st1, held, s))
    ensures Inv(env, Do(st1, s), Held(st1, held, s)) && Quiet(steps + [s])
  {
    hide Inv, Allowed, Do, Held;
    TakesStep(env, st, f, steps, st1, held, s);
    StepKeepsInv(env, st1, held, s);
  }

  // ---------------------------------------------------------------- counters

  lemma CountAtMostSize(m: multiset<SegmentId>, id: SegmentId)
    ensures m[id] <= |m|
  {
    assert m == m[id := 0] + Copies(id, m[id]);
  }

  /** Every count can grow by `n` and stay within its 32 bits. */
  predicate Room(l: Log, n: nat) {
    n <= U32_MAX && forall id :: id in l.segs ==> l.segs[id].refCount + n <= U32_MAX
  }

  /** An operation that has taken the references `held` has used up no more room than those. */
  lemma RoomLeft(st: Store, f: multiset<SegmentId>, st1: Store, held: multiset<SegmentId>, n: nat)
    requires Counted(st, f) && Referenced(st) && Counted(st1, f + held) && st1.reg.capsules == st.reg.capsules
    requires Room(st.log, |held| + n)
    ensures Room(st1.log, n)
  {
    forall id | id in st1.log.segs ensures st1.log.segs[id].refCount + n <= U32_MAX {
      CountAtMostSize(held, id);
      RefsMember(st.reg.capsules, id);
    }
  }

  // ---------------------------------------------------------------- the sequential write loop

  /** One chunk as the loop meets it: what preparing it gave, and what the device does if it is appended. */
  datatype Feed = Feed(prep: Result<Prepared>, io: Io)

  datatype ChunkResult = ChunkResult(steps: seq<Step>, id: Result<SegmentId>)

  function Tagged(s: Segment, p: Prepared, dedupe: bool): Segment {
    s.(compressed := p.compressed, algo := p.algo, contentHash := if dedupe then Some(p.hash) else s.contentHash,
       refCount := 1, deduplicated := false, encryption := p.encryption)
  }

  function NewChunkSteps(st: Store, dedupe: bool, p: Prepared): seq<Step> {
    var id := st.reg.nextId;
    [AllocStep, AppendStep(id, p.data), UpdateStep(id, Tagged(FreshSegment(id, st.log.next, |p.data|), p, dedupe))]
    + if dedupe then [RegisterStep(p.hash, id)] else []
  }

  function WriteChunk(st: Store, dedupe: bool, feed: Feed): ChunkResult {
    match feed.prep
    case Err(e) => ChunkResult([], Err(e))
    case Ok(p) =>
      if dedupe && p.hash in st.reg.content then
        var id := st.reg.content[p.hash];
        if id in st.log.segs then ChunkResult([IncStep(id)], Ok(id)) else ChunkResult([], Err(SegmentNotFound))
      else if feed.io.Torn? then
        ChunkResult([AllocStep, WriteStep(st.log.next, p.data[..Min(feed.io.bytes, |p.data|)])], Err(DeviceFailure))
      else ChunkResult(NewChunkSteps(st, dedupe, p), Ok(st.reg.nextId))
  }

  /** `error` ends the loop; `steps` is everything done so far, `ids` the segment list so far. */
  datatype LoopState = LoopState(st: Store, ids: seq<SegmentId>, steps: seq<Step>, error: Option<Error>)

  function LoopStep(r: LoopState, dedupe: bool, feed: Feed): LoopState {
    if r.error.Some? then r
    else
      var c := WriteChunk(r.st, dedupe, feed);
      match c.id
      case Ok(id) => LoopState(Run(r.st, c.steps), r.ids + [id], r.steps + c.steps, None)
      case Err(e) => LoopState(Run(r.st, c.steps), r.ids, r.steps + c.steps, Some(e))
  }

  function WriteLoop(st: Store, dedupe: bool, feeds: seq<Feed>): LoopState {
    if feeds == [] then LoopState(st, [], [], None)
    else LoopStep(WriteLoop(st, dedupe, feeds[..|feeds| - 1]), dedupe, feeds[|feeds| - 1])
  }

  datatype Program = Program(steps: seq<Step>, outcome: Result<CapsuleId>)

  function SyncWrite(st: Store, cid: CapsuleId, size: nat, policy: Policy, feeds: seq<Feed>): Program {
    var r := WriteLoop(st, policy.dedupe, feeds);
    if r.error.Some? then Program(r.steps, Err(r.error.value))
    else if cid in r.st.reg.capsules then Program(r.steps, Err(CapsuleCollision))
    else Program(r.steps + [CreateStep(cid, Capsule(size, r.ids, policy))], Ok(cid))
  }

  /** What preparation guarantees of a chunk that came through it. */
  predicate Sound(env: Env, feed: Feed) {
    feed.prep.Ok? ==> Sealed(env, feed.prep.value) && |feed.prep.value.data| <= U32_MAX
  }

  /** The stores after the three calls that write a new segment. */
  function AfterAppend(st: Store, p: Prepared): Store {
    Do(Do(st, AllocStep), AppendStep(st.reg.nextId, p.data))
  }

  function AfterTag(st: Store, dedupe: bool, p: Prepared): Store {
    Do(AfterAppend(st, p), UpdateStep(st.reg.nextId, Tagged(FreshSegment(st.reg.nextId, st.log.next, |p.data|), p, dedupe)))
  }

  lemma NewChunkAllowed(env: Env, st: Store, f: multiset<SegmentId>, dedupe: bool, p: Prepared)
    requires Inv(env, st, f) && Sealed(env, p) && |p.data| <= U32_MAX
    ensures var id := st.reg.nextId; var tag := Tagged(FreshSegment(id, st.log.next, |p.data|), p, dedupe);
            && id !in st.log.segs
            && Allowed(env, Do(st, AllocStep), f, AppendStep(id, p.data))
            && Allowed(env, AfterAppend(st, p), f + multiset{id}, UpdateStep(id, tag))
            && (dedupe ==> Allowed(env, AfterTag(st, dedupe, p), f + multiset{id}, RegisterStep(p.hash, id)))
    ensures var id, l := st.reg.nextId, AfterTag(st, dedupe, p).log;
            && id in l.segs && Plain(env, l, id) == Decrypt(env, p.encryption, p.data)
            && (forall j :: j in st.log.segs ==> Kept(st.log, l, j))
            && (NoZero(st.log) ==> NoZero(l))
  {
    var id := st.reg.nextId;
    assert id !in Refs(st.reg.capsules) by { RefsMember(st.reg.capsules, id); }
    AppendOk(st.log, id, p.data);
    var l1, l2 := AfterAppend(st, p).log, AfterTag(st, dedupe, p).log;
    assert RawOf(l2, id) == RawOf(l1, id) == Some(p.data);
    forall j | j in st.log.segs ensures Kept(st.log, l2, j) { assert Kept(st.log, l1, j); }
  }

  lemma NewChunkOk(env: Env, st: Store, f: multiset<SegmentId>, dedupe: bool, p: Prepared)
    requires Inv(env, st, f) && Sealed(env, p) && |p.data| <= U32_MAX
    ensures var steps, id := NewChunkSteps(st, dedupe, p), st.reg.nextId;
            && Takes(env, st, f, steps, Run(st, steps), f + multiset{id})
            && Quiet(steps)
            && id in Run(st, steps).log.segs
            && Plain(env, Run(st, steps).log, id) == Decrypt(env, p.encryption, p.data)
            && (forall j :: j in st.log.segs ==> Kept(st.log, Run(st, steps).log, j))
            && (NoZero(st.log) ==> NoZero(Run(st, steps).log))
  {
    hide Inv, Kept, Plain, NoZero, AllAllowed, HeldAfter, Run, Sealed, Tagged;
    NewChunkAllowed(env, st, f, dedupe, p);
    var id := st.reg.nextId;
    var tag := Tagged(FreshSegment(id, st.log.next, |p.data|), p, dedupe);
    var a, u, r := AppendStep(id, p.data), UpdateStep(id, tag), RegisterStep(p.hash, id);
    TakesOne(env, st, f, AllocStep);
    TakesStep(env, st, f, [AllocStep], Do(st, AllocStep), f, a);
    TakesStep(env, st, f, [AllocStep] + [a], AfterAppend(st, p), f + multiset{id}, u);
    assert [AllocStep] + [a] + [u] == [AllocStep, a, u];
    if dedupe {
      TakesStep(env, st, f, [AllocStep, a, u], AfterTag(st, dedupe, p), f + multiset{id}, r);
    } else {
      assert NewChunkSteps(st, dedupe, p) == [AllocStep, a, u];
    }
  }

  lemma NewChunkRun(st: Store, dedupe: bool, p: Prepared)
    ensures Run(st, NewChunkSteps(st, dedupe, p)) ==
      if dedupe then Do(AfterTag(st, dedupe, p), RegisterStep(p.hash, st.reg.nextId)) else AfterTag(st, dedupe, p)
  {
    hide Tagged, WriteAt;
    var steps := NewChunkSteps(st, dedupe, p);
    assert steps[..1] == [AllocStep] && steps[..2][..1] == steps[..1] && steps[..3][..2] == steps[..2];
    assert Run(st, steps[..1]) == Do(st, AllocStep);
    assert Run(st, steps[..2]) == AfterAppend(st, p);
    assert Run(st, steps[..3]) == AfterTag(st, dedupe, p);
    if dedupe {
      assert steps[..|steps| - 1] == steps[..3];
    } else {
      assert steps[..3] == steps;
    }
  }

  lemma NoStepsOk(env: Env, st: Store, f: multiset<SegmentId>)
    ensures Run(st, []) == st && Takes(env, st, f, [], st, f)
    ensures forall j :: j in st.log.segs ==> Kept(st.log, st.log, j)
  {
  }

  /** A dedup hit: the entry names a live segment, and by collision freedom its content is the chunk's. */
  lemma ReuseOk(env: Env, st: Store, f: multiset<SegmentId>, p: Prepared)
    requires Inv(env, st, f) && Sealed(env, p) && Room(st.log, 1) && p.hash in st.reg.content
    ensures var id := st.reg.content[p.hash]; var st' := Run(st, [IncStep(id)]);
            && id in st.log.segs && id in st'.log.segs
            && Takes(env, st, f, [IncStep(id)], st', f + multiset{id})
            && (forall j :: j in st.log.segs ==> Kept(st.log, st'.log, j))
            && (NoZero(st.log) ==> NoZero(st'.log))
            && Plain(env, st'.log, id).Ok?
            && (CollisionFree(env) ==> Plain(env, st'.log, id) == Decrypt(env, p.encryption, p.data))
  {
    var id := st.reg.content[p.hash];
    TakesOne(env, st, f, IncStep(id));
    var st' := Do(st, IncStep(id));
    assert HashedAt(env, st.log, id) && Kept(st.log, st'.log, id);
    assert Plain(env, st'.log, id) == Plain(env, st.log, id);
  }

  lemma TornAppendOk(env: Env, st: Store, f: multiset<SegmentId>, piece: Bytes)
    requires Inv(env, st, f)
    ensures var steps := [AllocStep, WriteStep(st.log.next, piece)]; var st' := Run(st, steps);
            && Takes(env, st, f, steps, st', f)
            && (forall j :: j in st.log.segs ==> Kept(st.log, st'.log, j))
            && (NoZero(st.log) ==> NoZero(st'.log))
  {
    var w := WriteStep(st.log.next, piece);
    TakesOne(env, st, f, AllocStep);
    TakesStep(env, st, f, [AllocStep], Do(st, AllocStep), f, w);
    assert [AllocStep] + [w] == [AllocStep, w];
    WriteKeeps(st.log, st.log.next, piece, st.log.next);
  }

  lemma WriteChunkOk(env: Env, st: Store, f: multiset<SegmentId>, dedupe: bool, feed: Feed)
    requires Inv(env, st, f) && Sound(env, feed) && Room(st.log, 1)
    ensures var c := WriteChunk(st, dedupe, feed); var st' := Run(st, c.steps);
            && Quiet(c.steps)
            && Takes(env, st, f, c.steps, st', if c.id.Ok? then f + multiset{c.id.value} else f)
            && (forall j :: j in st.log.segs ==> Kept(st.log, st'.log, j))
            && (NoZero(st.log) ==> NoZero(st'.log))
            && (c.id.Ok? ==> feed.prep.Ok? && c.id.value in st'.log.segs && Plain(env, st'.log, c.id.value).Ok?)
            && (c.id.Ok? && CollisionFree(env) ==>
                  Plain(env, st'.log, c.id.value) == Decrypt(env, feed.prep.value.encryption, feed.prep.value.data))
  {
    hide Inv, Kept, Plain, NoZero, AllAllowed, HeldAfter, Run, Tagged, Decrypt, Takes;
    if feed.prep.Ok? {
      var p := feed.prep.value;
      if dedupe && p.hash in st.reg.content {
        ReuseOk(env, st, f, p);
      } else if feed.io.Torn? {
        TornAppendOk(env, st, f, p.data[..Min(feed.io.bytes, |p.data|)]);
      } else {
        NewChunkOk(env, st, f, dedupe, p);
      }
    } else {
      NoStepsOk(env, st, f);
    }
  }

  /** The plain content of each segment of a growing list stays what its chunk prepared to. */
  ghost predicate ReadsAs(env: Env, l: Log, c: Compression, ids: seq<SegmentId>, chunks: seq<Bytes>) {
    |ids| == |chunks| && (forall id :: id in ids ==> id in l.segs) && ReadSegments(env, l, c, ids) == Ok(Flatten(chunks))
  }

  lemma ReadsAsGrows(env: Env, l: Log, l': Log, c: Compression, ids: seq<SegmentId>, chunks: seq<Bytes>, id: SegmentId, chunk: Bytes)
    requires ReadsAs(env, l, c, ids, chunks)
    requires forall j :: j in l.segs ==> Kept(l, l', j)
    requires id in l'.segs && Plain(env, l', id).Ok? && Unpack(env, c, Plain(env, l', id).value) == chunk
    ensures ReadsAs(env, l', c, ids + [id], chunks + [chunk])
  {
    KeptReads(env, l, l', c, ids);
    assert (ids + [id])[..|ids|] == ids;
    assert (chunks + [chunk])[..|chunks|] == chunks;
  }

  /** Every feed that was prepared is a faithful image of its chunk. */
  ghost predicate FaithfulFeeds(env: Env, c: Compression, feeds: seq<Feed>, chunks: seq<Bytes>) {
    && |feeds| == |chunks|
    && forall i :: 0 <= i < |feeds| && feeds[i].prep.Ok? ==> Faithful(env, c, chunks[i], feeds[i].prep.value)
  }

  /** What holds of the loop after any number of chunks, failed or not: its steps were all allowed and the
      references it holds are exactly its segment list, so every count is exact. */
  ghost predicate LoopInv(env: Env, st: Store, f: multiset<SegmentId>, r: LoopState) {
    && Takes(env, st, f, r.steps, r.st, f + multiset(r.ids))
    && Inv(env, r.st, f + multiset(r.ids))
    && Quiet(r.steps) && r.st.reg.capsules == st.reg.capsules
    && (NoZero(st.log) ==> NoZero(r.st.log))
  }

  lemma LoopRoom(env: Env, st: Store, f: multiset<SegmentId>, r: LoopState)
    requires Inv(env, st, f) && LoopInv(env, st, f, r) && Room(st.log, |r.ids| + 1)
    ensures Room(r.st.log, 1)
  {
    hide Takes, Quiet, NoZero, Room;
    assert |multiset(r.ids)| == |r.ids|;
    RoomLeft(st, f, r.st, multiset(r.ids), 1);
  }

  lemma LoopStepOk(env: Env, st: Store, f: multiset<SegmentId>, r: LoopState, dedupe: bool, feed: Feed)
    requires Inv(env, st, f) && LoopInv(env, st, f, r) && Sound(env, feed) && Room(st.log, |r.ids| + 1)
    ensures LoopInv(env, st, f, LoopStep(r, dedupe, feed))
  {
    hide Inv, Takes, Run, WriteChunk, NoZero, Sound, Room;
    if r.error.None? {
      var held, c := f + multiset(r.ids), WriteChunk(r.st, dedupe, feed);
      LoopRoom(env, st, f, r);
      WriteChunkOk(env, r.st, held, dedupe, feed);
      var f' := if c.id.Ok? then held + multiset{c.id.value} else held;
      TakesAfter(env, st, f, r.steps, r.st, held, c.steps, f');
      QuietCapsules(r.st, c.steps);
      if c.id.Ok? {
        assert f + multiset(r.ids + [c.id.value]) == f';
      }
    }
  }

  lemma TakesAfter(env: Env, st: Store, f: multiset<SegmentId>, a: seq<Step>, st1: Store, f1: multiset<SegmentId>,
                   b: seq<Step>, f2: multiset<SegmentId>)
    requires Takes(env, st, f, a, st1, f1) && Inv(env, st1, f1) && Takes(env, st1, f1, b, Run(st1, b), f2)
    ensures Takes(env, st, f, a + b, Run(st1, b), f2) && Inv(env, Run(st1, b), f2)
  {
    TakesConcat(env, st, f, a, st1, f1, b, Run(st1, b), f2);
    ProgramKeepsInv(env, st1, f1, b);
  }

  lemma {:induction false} WriteLoopOk(env: Env, st: Store, f: multiset<SegmentId>, dedupe: bool, feeds: seq<Feed>)
    requires Inv(env, st, f) && Room(st.log, |feeds|)
    requires forall i :: 0 <= i < |feeds| ==> Sound(env, feeds[i])
    ensures LoopInv(env, st, f, WriteLoop(st, dedupe, feeds)) && |WriteLoop(st, dedupe, feeds).ids| <= |feeds|
  {
    if feeds != [] {
      hide Inv, LoopInv, LoopStep, Sound, Refs;
      WriteLoopOk(env, st, f, dedupe, feeds[..|feeds| - 1]);
      LoopStepOk(env, st, f, WriteLoop(st, dedupe, feeds[..|feeds| - 1]), dedupe, feeds[|feeds| - 1]);
    } else {
      assert f + multiset([]) == f;
    }
  }

  lemma {:induction false} QuietCapsules(st: Store, steps: seq<Step>)
    requires Quiet(steps)
    ensures Run(st, steps).reg.capsules == st.reg.capsules
  {
    if steps != [] {
      QuietCapsules(st, steps[..|steps| - 1]);
      assert steps[|steps| - 1] in steps;
    }
  }

  lemma LoopStepReads(env: Env, st: Store, f: multiset<SegmentId>, r: LoopState, dedupe: bool, feed: Feed,
                      c: Compression, chunks: seq<Bytes>, chunk: Bytes)
    requires Inv(env, st, f) && LoopInv(env, st, f, r) && Sound(env, feed) && Room(st.log, |r.ids| + 1) && CollisionFree(env)
    requires r.error.None? && ReadsAs(env, r.st.log, c, r.ids, chunks)
    requires feed.prep.Ok? ==> Faithful(env, c, chunk, feed.prep.value)
    ensures var r' := LoopStep(r, dedupe, feed); r'.error.None? ==> ReadsAs(env, r'.st.log, c, r'.ids, chunks + [chunk])
  {
    hide Inv, Takes, Run, WriteChunk, NoZero, ReadsAs, Kept, Plain, Quiet, Room;
    LoopRoom(env, st, f, r);
    WriteChunkOk(env, r.st, f + multiset(r.ids), dedupe, feed);
    var w := WriteChunk(r.st, dedupe, feed);
    if w.id.Ok? {
      ReadsAsGrows(env, r.st.log, Run(r.st, w.steps).log, c, r.ids, chunks, w.id.value, chunk);
    }
  }

  /** While it has not failed, the loop's segment list reads the chunks written so far, shared or not. */
  lemma {:induction false} WriteLoopReads(env: Env, st: Store, f: multiset<SegmentId>, dedupe: bool, feeds: seq<Feed>,
                                          c: Compression, chunks: seq<Bytes>)
    requires Inv(env, st, f) && Room(st.log, |feeds|) && CollisionFree(env)
    requires forall i :: 0 <= i < |feeds| ==> Sound(env, feeds[i])
    requires FaithfulFeeds(env, c, feeds, chunks)
    ensures var r := WriteLoop(st, dedupe, feeds);
            r.error.None? ==> ReadsAs(env, r.st.log, c, r.ids, chunks)
  {
    if feeds != [] {
      LoopUnfold(st, dedupe, feeds);
      var n := |feeds| - 1;
      FaithfulPrefix(env, c, feeds, chunks);
      hide Inv, LoopInv, LoopStep, Sound, ReadsAs, Faithful, FaithfulFeeds, WriteLoop, Refs;
      WriteLoopReads(env, st, f, dedupe, feeds[..n], c, chunks[..n]);
      WriteLoopOk(env, st, f, dedupe, feeds[..n]);
      var r := WriteLoop(st, dedupe, feeds[..n]);
      if r.error.None? {
        LoopStepReads(env, st, f, r, dedupe, feeds[n], c, chunks[..n], chunks[n]);
      } else {
        FailedLoopStays(r, dedupe, feeds[n]);
      }
    }
  }

  lemma FaithfulPrefix(env: Env, c: Compression, feeds: seq<Feed>, chunks: seq<Bytes>)
    requires feeds != [] && FaithfulFeeds(env, c, feeds, chunks)
    ensures var n := |feeds| - 1;
            && |chunks| == |feeds| && FaithfulFeeds(env, c, feeds[..n], chunks[..n])
            && (feeds[n].prep.Ok? ==> Faithful(env, c, chunks[n], feeds[n].prep.value))
            && chunks[..n] + [chunks[n]] == chunks
  {
  }

  lemma LoopUnfold(st: Store, dedupe: bool, feeds: seq<Feed>)
    requires feeds != []
    ensures WriteLoop(st, dedupe, feeds) == LoopStep(WriteLoop(st, dedupe, feeds[..|feeds| - 1]), dedupe, feeds[|feeds| - 1])
  {
  }

  lemma FailedLoopStays(r: LoopState, dedupe: bool, feed: Feed)
    requires r.error.Some?
    ensures LoopStep(r, dedupe, feed) == r
  {
  }

  /** The sequential write, whatever fails in it: its steps are allowed; on success it holds nothing more
      than before, on failure it leaves exactly its partial segment list held. */
  lemma SyncWriteOk(env: Env, st: Store, f: multiset<SegmentId>, cid: CapsuleId, size: nat, policy: Policy, feeds: seq<Feed>)
    requires Inv(env, st, f) && Room(st.log, |feeds|)
    requires forall i :: 0 <= i < |feeds| ==> Sound(env, feeds[i])
    ensures var w := SyncWrite(st, cid, size, policy, feeds); var ids := WriteLoop(st, policy.dedupe, feeds).ids;
            var st' := Run(st, w.steps);
            && Takes(env, st, f, w.steps, st', if w.outcome.Ok? then f else f + multiset(ids))
            && Inv(env, st', if w.outcome.Ok? then f else f + multiset(ids))
            && (NoZero(st.log) ==> NoZero(st'.log))
            && (w.outcome.Ok? <==> st'.reg.capsules != st.reg.capsules)
  {
    hide Inv, AllAllowed, HeldAfter, WriteLoop, NoZero, Sound, Refs, Quiet, Allowed, Run;
    WriteLoopOk(env, st, f, policy.dedupe, feeds);
    var r := WriteLoop(st, policy.dedupe, feeds);
    if r.error.None? && cid !in r.st.reg.capsules {
      var s := CreateStep(cid, Capsule(size, r.ids, policy));
      CreateAllowed(env, r.st, f, cid, s.capsule);
      TakesStep(env, st, f, r.steps, r.st, f + multiset(r.ids), s);
      StepKeepsInv(env, r.st, f + multiset(r.ids), s);
      assert f + multiset(r.ids) - multiset(r.ids) == f;
      assert cid in Do(r.st, s).reg.capsules;
    }
  }

  // ---------------------------------------------------------------- when a sequential write succeeds

  /** The chunk's hash is known when its turn comes: it was stored before, or an earlier chunk has it. */
  predicate Known(st: Store, dedupe: bool, feeds: seq<Feed>, i: nat)
    requires i < |feeds| && feeds[i].prep.Ok?
  {
    dedupe && (feeds[i].prep.value.hash in st.reg.content || Earlier(feeds, i, feeds[i].prep.value.hash))
  }

  /** One of the first `n` chunks has hash `h`. */
  predicate Earlier(feeds: seq<Feed>, n: nat, h: ContentHash)
    requires n <= |feeds|
  {
    exists j :: 0 <= j < n && feeds[j].prep.Ok? && feeds[j].prep.value.hash == h
  }

  /** The chunk could be prepared, and the device works or is not needed. */
  predicate Writable(st: Store, dedupe: bool, feeds: seq<Feed>, i: nat)
    requires i < |feeds|
  {
    feeds[i].prep.Ok? && (feeds[i].io.Good? || Known(st, dedupe, feeds, i))
  }

  /** What a chunk that cannot be written reports. */
  function WhyNot(feed: Feed): Error { if feed.prep.Err? then feed.prep.error else DeviceFailure }

  /** Chunk `n` is the first that cannot be written. */
  predicate FirstUnwritable(st: Store, dedupe: bool, feeds: seq<Feed>, n: nat) {
    n < |feeds| && !Writable(st, dedupe, feeds, n) && forall i :: 0 <= i < n ==> Writable(st, dedupe, feeds, i)
  }

  lemma ChunkSucceedsIff(st: Store, dedupe: bool, feed: Feed)
    requires Indexed(st)
    ensures var c := WriteChunk(st, dedupe, feed);
            && (c.id.Ok? <==> feed.prep.Ok? && (feed.io.Good? || (dedupe && feed.prep.value.hash in st.reg.content)))
            && (c.id.Err? ==> c.id == Err(WhyNot(feed)))
            && (c.id.Ok? ==>
                  Run(st, c.steps).reg.content.Keys == st.reg.content.Keys + if dedupe then {feed.prep.value.hash} else {})
  {
    hide Tagged;
    if feed.prep.Ok? {
      var p := feed.prep.value;
      if dedupe && p.hash in st.reg.content {
        RunOne(st, IncStep(st.reg.content[p.hash]));
      } else if feed.io.Good? {
        NewChunkRun(st, dedupe, p);
      }
    }
  }

  lemma {:induction false} LoopSucceedsIff(env: Env, st: Store, f: multiset<SegmentId>, dedupe: bool, feeds: seq<Feed>)
    requires Inv(env, st, f) && Room(st.log, |feeds|)
    requires forall i :: 0 <= i < |feeds| ==> Sound(env, feeds[i])
    ensures var r := WriteLoop(st, dedupe, feeds);
            && (r.error.None? <==> forall i :: 0 <= i < |feeds| ==> Writable(st, dedupe, feeds, i))
            && (r.error.None? ==> forall h :: h in r.st.reg.content <==> h in st.reg.content || (dedupe && Earlier(feeds, |feeds|, h)))
  {
    hide Inv, Sound, Refs, WriteChunk, LoopInv, Run;
    if feeds != [] {
      var n, init := |feeds| - 1, feeds[..|feeds| - 1];
      LoopSucceedsIff(env, st, f, dedupe, init);
      WriteLoopOk(env, st, f, dedupe, init);
      var r := WriteLoop(st, dedupe, init);
      LoopIndexed(env, st, f, r);
      ChunkSucceedsIff(r.st, dedupe, feeds[n]);
      forall i | 0 <= i < n ensures Writable(st, dedupe, feeds, i) <==> Writable(st, dedupe, init, i) {
        if feeds[i].prep.Ok? { EarlierPrefix(feeds, n, i, feeds[i].prep.value.hash); }
      }
      forall h ensures Earlier(feeds, n, h) <==> Earlier(init, n, h) { EarlierPrefix(feeds, n, n, h); }
      forall h ensures Earlier(feeds, |feeds|, h) <==> Earlier(feeds, n, h) || (feeds[n].prep.Ok? && feeds[n].prep.value.hash == h) {
        if Earlier(feeds, n, h) {
          var j :| 0 <= j < n && feeds[j].prep.Ok? && feeds[j].prep.value.hash == h;
          assert feeds[j].prep.value.hash == h;
        }
      }
      LoopUnfold(st, dedupe, feeds);
      if r.error.None? {
        assert Writable(st, dedupe, feeds, n) <==> WriteChunk(r.st, dedupe, feeds[n]).id.Ok?;
        assert forall i :: 0 <= i < n ==> Writable(st, dedupe, feeds, i);
      } else {
        var i :| 0 <= i < n && !Writable(st, dedupe, init, i);
        assert !Writable(st, dedupe, feeds, i);
      }
    }
  }

  /** A loop that fails reports its first chunk that cannot be written. */
  lemma {:induction false} LoopError(env: Env, st: Store, f: multiset<SegmentId>, dedupe: bool, feeds: seq<Feed>, n: nat)
    requires Inv(env, st, f) && Room(st.log, |feeds|) && FirstUnwritable(st, dedupe, feeds, n)
    requires forall i :: 0 <= i < |feeds| ==> Sound(env, feeds[i])
    ensures WriteLoop(st, dedupe, feeds).error == Some(WhyNot(feeds[n]))
  {
    hide Inv, Sound, Refs, WriteChunk, LoopInv, Run, Writable, Room;
    var last, init := |feeds| - 1, feeds[..|feeds| - 1];
    RoomSmaller(st.log, |feeds|, last);
    forall i | 0 <= i < last ensures Writable(st, dedupe, init, i) <==> Writable(st, dedupe, feeds, i) {
      SameWritable(st, dedupe, feeds, i);
    }
    LoopUnfold(st, dedupe, feeds);
    if n < last {
      LoopError(env, st, f, dedupe, init, n);
    } else {
      LoopSucceedsIff(env, st, f, dedupe, init);
      LoopSucceedsIff(env, st, f, dedupe, feeds);
      WriteLoopOk(env, st, f, dedupe, init);
      LoopIndexed(env, st, f, WriteLoop(st, dedupe, init));
      ChunkSucceedsIff(WriteLoop(st, dedupe, init).st, dedupe, feeds[n]);
    }
  }

  lemma RoomSmaller(l: Log, n: nat, m: nat)
    requires Room(l, n) && m <= n
    ensures Room(l, m)
  {
  }

  lemma SameWritable(st: Store, dedupe: bool, feeds: seq<Feed>, i: nat)
    requires i < |feeds| - 1
    ensures Writable(st, dedupe, feeds[..|feeds| - 1], i) <==> Writable(st, dedupe, feeds, i)
  {
    var n := |feeds| - 1;
    if feeds[i].prep.Ok? { EarlierPrefix(feeds, n, i, feeds[i].prep.value.hash); }
  }

  lemma LoopIndexed(env: Env, st: Store, f: multiset<SegmentId>, r: LoopState)
    requires LoopInv(env, st, f, r)
    ensures Indexed(r.st)
  {
  }

  lemma EarlierPrefix(feeds: seq<Feed>, n: nat, i: nat, h: ContentHash)
    requires i <= n <= |feeds|
    ensures Earlier(feeds, i, h) <==> Earlier(feeds[..n], i, h)
  {
    if Earlier(feeds, i, h) {
      var j :| 0 <= j < i && feeds[j].prep.Ok? && feeds[j].prep.value.hash == h;
      assert feeds[..n][j] == feeds[j];
    }
  }

  /** A sequential write succeeds exactly if its id is free, every chunk could be prepared, and the device works for
      every chunk whose hash is new. If it fails it reports what is wrong with the first chunk that cannot be written, or
      that the id is taken. */
  lemma SyncSucceedsIff(env: Env, st: Store, f: multiset<SegmentId>, cid: CapsuleId, size: nat, policy: Policy, feeds: seq<Feed>)
    requires Inv(env, st, f) && Room(st.log, |feeds|)
    requires forall i :: 0 <= i < |feeds| ==> Sound(env, feeds[i])
    ensures SyncWrite(st, cid, size, policy, feeds).outcome.Ok? <==>
              cid !in st.reg.capsules && forall i :: 0 <= i < |feeds| ==> Writable(st, policy.dedupe, feeds, i)
    ensures var w := SyncWrite(st, cid, size, policy, feeds);
            w.outcome.Err? ==>
              && (forall n: nat :: FirstUnwritable(st, policy.dedupe, feeds, n) ==> w.outcome.error == WhyNot(feeds[n]))
              && ((forall i :: 0 <= i < |feeds| ==> Writable(st, policy.dedupe, feeds, i)) ==> w.outcome.error == CapsuleCollision)
  {
    hide Inv, Sound, Refs, WriteLoop, Writable;
    LoopSucceedsIff(env, st, f, policy.dedupe, feeds);
    WriteLoopOk(env, st, f, policy.dedupe, feeds);
    forall n: nat | FirstUnwritable(st, policy.dedupe, feeds, n)
      ensures WriteLoop(st, policy.dedupe, feeds).error == Some(WhyNot(feeds[n]))
    {
      LoopError(env, st, f, policy.dedupe, feeds, n);
    }
  }

  /** The sequential write at every step: until its last step every capsule reads as before; the last step of a
      successful write adds the capsule, and it reads `chunks`, what the prepared chunks unpack to. */
  lemma SyncWriteShows(env: Env, st: Store, f: multiset<SegmentId>, cid: CapsuleId, size: nat, policy: Policy,
                       feeds: seq<Feed>, chunks: seq<Bytes>, view: map<CapsuleId, Entry>, k: nat)
    requires Inv(env, st, f) && Room(st.log, |feeds|) && CollisionFree(env) && Shows(env, st, view)
    requires forall i :: 0 <= i < |feeds| ==> Sound(env, feeds[i])
    requires FaithfulFeeds(env, policy.compression, feeds, chunks)
    requires k <= |SyncWrite(st, cid, size, policy, feeds).steps|
    ensures var w := SyncWrite(st, cid, size, policy, feeds);
            Shows(env, Run(st, w.steps[..k]), if w.outcome.Ok? && k == |w.steps| then view[cid := Entry(Flatten(chunks), size)] else view)
  {
    hide Inv, NoZero, Sound, Shows, Quiet, Chunks, Faithful, AllAllowed, HeldAfter, WriteLoop, Run, ReadsAs, Refs;
    var w := SyncWrite(st, cid, size, policy, feeds);
    var r := WriteLoop(st, policy.dedupe, feeds);
    WriteLoopOk(env, st, f, policy.dedupe, feeds);
    if k <= |r.steps| {
      AllowedPrefix(env, st, f, r.steps, k);
      assert w.steps[..k] == r.steps[..k];
      QuietPrefix(r.steps, k);
      QuietShows(env, st, f, r.steps[..k], view);
    } else {
      assert w.steps[..k] == w.steps;
      WriteLoopReads(env, st, f, policy.dedupe, feeds, policy.compression, chunks);
      CreateAfterLoop(env, st, f, r, cid, size, chunks, policy, view);
    }
  }

  lemma QuietConcat(a: seq<Step>, b: seq<Step>)
    requires Quiet(a) && Quiet(b)
    ensures Quiet(a + b)
  {
  }

  lemma QuietPrefix(steps: seq<Step>, k: nat)
    requires Quiet(steps) && k <= |steps|
    ensures Quiet(steps[..k])
  {
  }

  lemma CreateAfterLoop(env: Env, st: Store, f: multiset<SegmentId>, r: LoopState, cid: CapsuleId, size: nat,
                        chunks: seq<Bytes>, policy: Policy, view: map<CapsuleId, Entry>)
    requires Inv(env, st, f) && LoopInv(env, st, f, r) && cid !in r.st.reg.capsules && Shows(env, st, view)
    requires ReadsAs(env, r.st.log, policy.compression, r.ids, chunks)
    ensures Shows(env, Run(st, r.steps + [CreateStep(cid, Capsule(size, r.ids, policy))]), view[cid := Entry(Flatten(chunks), size)])
  {
    hide Inv, NoZero, Shows, Quiet, Chunks, AllAllowed, HeldAfter, ReadSegments, Refs, Run, Allowed;
    var c := Capsule(size, r.ids, policy);
    RunSnoc(st, r.steps, CreateStep(cid, c));
    QuietShows(env, st, f, r.steps, view);
    CreateAllowed(env, r.st, f, cid, c);
    CreateShows(env, r.st, f + multiset(r.ids), cid, c, Flatten(chunks), view);
  }

  // ---------------------------------------------------------------- delete

  datatype Release = Release(st: Store, steps: seq<Step>, error: Option<Error>)

  /** Decrement one occurrence; at zero take the content entry and the segment away. */
  function ReleaseSteps(st: Store, id: SegmentId): seq<Step>
    requires id in st.log.segs && st.log.segs[id].refCount > 0
  {
    var s := st.log.segs[id];
    if s.refCount > 1 then [DecStep(id)]
    else [DecStep(id)] + ReclaimSteps(s, id)
  }

  function ReleaseOne(r: Release, id: SegmentId): Release {
    if r.error.Some? then r
    else if id !in r.st.log.segs then r.(error := Some(SegmentNotFound))
    else if r.st.log.segs[id].refCount == 0 then r.(error := Some(ZeroRefCount))
    else var steps := ReleaseSteps(r.st, id); Release(Run(r.st, steps), r.steps + steps, None)
  }

  function ReleaseLoop(st: Store, ids: seq<SegmentId>): Release {
    if ids == [] then Release(st, [], None)
    else ReleaseOne(ReleaseLoop(st, ids[..|ids| - 1]), ids[|ids| - 1])
  }

  function Delete(st: Store, cid: CapsuleId): Program {
    if cid !in st.reg.capsules then Program([], Err(CapsuleNotFound))
    else
      var r := ReleaseLoop(Do(st, DropStep(cid)), st.reg.capsules[cid].segments);
      Program([DropStep(cid)] + r.steps, if r.error.Some? then Err(r.error.value) else Ok(cid))
  }

  lemma ReleaseStepsOk(env: Env, st: Store, f: multiset<SegmentId>, id: SegmentId)
    requires Inv(env, st, f) && id in f
    ensures id in st.log.segs && st.log.segs[id].refCount > 0
    ensures var steps := ReleaseSteps(st, id); var st' := Run(st, steps);
            && Takes(env, st, f, steps, st', f - multiset{id})
            && Quiet(steps)
            && (NoZero(st.log) ==> NoZero(st'.log))
  {
    DecOk(env, st, f, id);
    var s, st1, f1 := st.log.segs[id], Do(st, DecStep(id)), f - multiset{id};
    if s.refCount == 1 {
      ReclaimOk(env, st1, f1, id);
      var steps := ReclaimSteps(s, id);
      hide Inv, Takes, ReclaimSteps, Quiet, HeldAfter, AllAllowed;
      TakesConcat(env, st, f, [DecStep(id)], st1, f1, steps, Run(st1, steps), f1);
      RunConcat(st, [DecStep(id)], steps);
      RunOne(st, DecStep(id));
      QuietConcat([DecStep(id)], steps);
    } else {
      hide Inv, Takes, Quiet, HeldAfter, AllAllowed;
      RunOne(st, DecStep(id));
    }
  }

  lemma RunOne(st: Store, s: Step)
    ensures Run(st, [s]) == Do(st, s)
  {
  }

  lemma DecOk(env: Env, st: Store, f: multiset<SegmentId>, id: SegmentId)
    requires Inv(env, st, f) && id in f
    ensures id in st.log.segs && st.log.segs[id].refCount > 0 && Quiet([DecStep(id)])
    ensures Takes(env, st, f, [DecStep(id)], Do(st, DecStep(id)), f - multiset{id})
    ensures Inv(env, Do(st, DecStep(id)), f - multiset{id})
  {
    TakesOne(env, st, f, DecStep(id));
    StepKeepsInv(env, st, f, DecStep(id));
  }

  function ReclaimSteps(s: Segment, id: SegmentId): seq<Step> {
    (if s.contentHash.Some? then [DeregisterStep(s.contentHash.value, id)] else []) + [RemoveStep(id)]
  }

  /** At count zero the content entry and then the segment can go. */
  lemma ReclaimOk(env: Env, st: Store, f: multiset<SegmentId>, id: SegmentId)
    requires Inv(env, st, f) && id in st.log.segs && st.log.segs[id].refCount == 0
    ensures var steps := ReclaimSteps(st.log.segs[id], id);
            && Takes(env, st, f, steps, Run(st, steps), f)
            && Run(st, steps).log == Remove(st.log, id)
            && Quiet(steps)
  {
    hide Takes, Run, Hashed, LogOk;
    var s := st.log.segs[id];
    DeregisteredUnindexed(st, id);
    if s.contentHash.Some? {
      var d := DeregisterStep(s.contentHash.value, id);
      TakesOne(env, st, f, d);
      RemoveAllowed(env, Do(st, d), f, id);
      TakesStep(env, st, f, [d], Do(st, d), f, RemoveStep(id));
      RunOne(st, d);
      RunSnoc(st, [d], RemoveStep(id));
    } else {
      RemoveAllowed(env, st, f, id);
      TakesOne(env, st, f, RemoveStep(id));
      RunOne(st, RemoveStep(id));
      assert [] + [RemoveStep(id)] == [RemoveStep(id)];
    }
  }

  lemma RemoveAllowed(env: Env, st: Store, f: multiset<SegmentId>, id: SegmentId)
    requires Counted(st, f) && id in st.log.segs && st.log.segs[id].refCount == 0 && Unindexed(st, id)
    ensures Allowed(env, st, f, RemoveStep(id)) && Held(st, f, RemoveStep(id)) == f
  {
    assert f[id := 0] == f;
  }

  lemma DeregisteredUnindexed(st: Store, id: SegmentId)
    requires Indexed(st) && id in st.log.segs
    ensures match st.log.segs[id].contentHash
            case Some(h) => Unindexed(Do(st, DeregisterStep(h, id)), id)
            case None => Unindexed(st, id)
  {
    forall h | h in st.reg.content && st.reg.content[h] == id ensures st.log.segs[id].contentHash == Some(h) {
    }
  }

  lemma ReleaseUnfold(st: Store, ids: seq<SegmentId>)
    requires ids != []
    ensures ReleaseLoop(st, ids) == ReleaseOne(ReleaseLoop(st, ids[..|ids| - 1]), ids[|ids| - 1])
  {
  }

  ghost predicate ReleaseInv(env: Env, st: Store, f: multiset<SegmentId>, r: Release, held: multiset<SegmentId>) {
    && r.error.None?
    && Takes(env, st, f, r.steps, r.st, held)
    && Inv(env, r.st, held)
    && Quiet(r.steps)
    && (NoZero(st.log) ==> NoZero(r.st.log))
  }

  lemma ReleaseOneOk(env: Env, st: Store, f: multiset<SegmentId>, r: Release, held: multiset<SegmentId>, id: SegmentId)
    requires ReleaseInv(env, st, f, r, held) && id in held
    ensures ReleaseInv(env, st, f, ReleaseOne(r, id), held - multiset{id})
  {
    hide Inv, Run, Takes, ReleaseSteps, NoZero, Quiet;
    ReleaseStepsOk(env, r.st, held, id);
    var steps := ReleaseSteps(r.st, id);
    TakesAfter(env, st, f, r.steps, r.st, held, steps, held - multiset{id});
    QuietConcat(r.steps, steps);
  }

  lemma {:induction false} ReleaseLoopOk(env: Env, st: Store, f: multiset<SegmentId>, ids: seq<SegmentId>)
    requires Inv(env, st, f) && multiset(ids) <= f
    ensures ReleaseInv(env, st, f, ReleaseLoop(st, ids), f - multiset(ids))
  {
    if ids == [] {
      ReleaseNothing(env, st, f);
    } else {
      ReleaseUnfold(st, ids);
      hide Inv, ReleaseInv, ReleaseOne, ReleaseLoop;
      var n := |ids| - 1;
      var rest := multiset(ids[..n]);
      assert ids == ids[..n] + [ids[n]];
      assert multiset(ids) == rest + multiset{ids[n]};
      ReleaseLoopOk(env, st, f, ids[..n]);
      ReleaseOneOk(env, st, f, ReleaseLoop(st, ids[..n]), f - rest, ids[n]);
      assert f - rest - multiset{ids[n]} == f - multiset(ids);
    }
  }

  lemma ReleaseNothing(env: Env, st: Store, f: multiset<SegmentId>)
    requires Inv(env, st, f)
    ensures ReleaseInv(env, st, f, ReleaseLoop(st, []), f - multiset([]))
  {
    assert f - multiset([]) == f;
  }

  /** Deleting a capsule, repeated segments included, never meets a missing segment or a zero count, and
      keeps every count exact. */
  lemma DeleteOk(env: Env, st: Store, f: multiset<SegmentId>, cid: CapsuleId)
    requires Inv(env, st, f)
    ensures var d := Delete(st, cid); var st' := Run(st, d.steps);
            && (d.outcome == if cid in st.reg.capsules then Ok(cid) else Err(CapsuleNotFound))
            && Takes(env, st, f, d.steps, st', f) && Inv(env, st', f)
            && (NoZero(st.log) ==> NoZero(st'.log))
            && st'.reg.capsules == st.reg.capsules - {cid}
  {
    if cid in st.reg.capsules {
      var ids := st.reg.capsules[cid].segments;
      var st1, f1 := Do(st, DropStep(cid)), f + multiset(ids);
      TakesOne(env, st, f, DropStep(cid));
      StepKeepsInv(env, st, f, DropStep(cid));
      ReleaseLoopOk(env, st1, f1, ids);
      var r := ReleaseLoop(st1, ids);
      TakesConcat(env, st, f, [DropStep(cid)], st1, f1, r.steps, r.st, f1 - multiset(ids));
      assert f1 - multiset(ids) == f;
      QuietCapsules(st1, r.steps);
    } else {
      assert st.reg.capsules - {cid} == st.reg.capsules;
    }
  }

  /** At every step of a delete the other capsules read as before. */
  lemma DeleteShows(env: Env, st: Store, f: multiset<SegmentId>, cid: CapsuleId, view: map<CapsuleId, Entry>, k: nat)
    requires Inv(env, st, f) && Shows(env, st, view) && k <= |Delete(st, cid).steps|
    ensures Shows(env, Run(st, Delete(st, cid).steps[..k]), if k > 0 then view - {cid} else view)
  {
    hide Inv, NoZero, Shows, AllAllowed, HeldAfter;
    if k > 0 {
      var ids := st.reg.capsules[cid].segments;
      var st1, f1 := Do(st, DropStep(cid)), f + multiset(ids);
      StepKeepsInv(env, st, f, DropStep(cid));
      DropShows(env, st, f, cid, view);
      ReleaseLoopOk(env, st1, f1, ids);
      var r := ReleaseLoop(st1, ids);
      AllowedPrefix(env, st1, f1, r.steps, k - 1);
      QuietShows(env, st1, f1, r.steps[..k - 1], view - {cid});
      assert Delete(st, cid).steps[..k] == [DropStep(cid)] + r.steps[..k - 1];
      RunConcat(st, [DropStep(cid)], r.steps[..k - 1]);
      assert Run(st, [DropStep(cid)]) == st1;
    }
  }
}
