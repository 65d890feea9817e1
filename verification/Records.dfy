/** What writes put into the log: the record and the bytes of every segment that they make; and what reading makes of
    records and bytes that do not belong together. */
module Records {
  import opened Types
  import opened Codec
  import opened NvramSim
  import opened Registry
  import opened Store
  import opened Programs
  import opened AsyncWrite
  import opened Refinement
  import opened AsyncMain
  import opened Runs
  import opened Pipeline
  import H = Histories

  // ---------------------------------------------------------------- one prepared chunk in the log

  /** The segment's record and bytes are those of a prepared chunk. */
  predicate RecordHas(l: Log, id: SegmentId, p: Prepared, dedupe: bool) {
    && id in l.segs && RawOf(l, id) == Some(p.data)
    && l.segs[id].compressed == p.compressed && l.segs[id].algo == p.algo && l.segs[id].encryption == p.encryption
    && l.segs[id].contentHash == if dedupe then Some(p.hash) else None
  }

  /** Everything that a record says of its bytes is as it was, and the bytes are. */
  predicate Frozen(l: Log, l': Log, id: SegmentId)
    requires id in l.segs
  {
    && Kept(l, l', id) && l'.segs[id].contentHash == l.segs[id].contentHash
    && l'.segs[id].compressed == l.segs[id].compressed && l'.segs[id].algo == l.segs[id].algo
  }

  predicate AllFrozen(l: Log, l': Log) { forall id :: id in l.segs ==> Frozen(l, l', id) }

  /** Only the segment `id` is new, if any. */
  predicate OnlyNew(l: Log, l': Log, id: SegmentId) { forall i :: i in l'.segs ==> i in l.segs || i == id }

  lemma HitRecords(l: Log, id: SegmentId)
    requires id in l.segs
    ensures AllFrozen(l, Increment(l, id)) && Increment(l, id).segs.Keys == l.segs.Keys
  {
  }

  lemma NewRecord(env: Env, st: Store, f: multiset<SegmentId>, dedupe: bool, p: Prepared)
    requires Inv(env, st, f) && Sealed(env, p) && |p.data| <= U32_MAX
    ensures var l, id := Run(st, NewChunkSteps(st, dedupe, p)).log, st.reg.nextId;
            id !in st.log.segs && RecordHas(l, id, p, dedupe) && AllFrozen(st.log, l) && OnlyNew(st.log, l, id)
  {
    hide Inv, Frozen, RecordHas, Run, NewChunkSteps, AfterTag, LogOk;
    var id := st.reg.nextId;
    FreshId(env, st, f);
    InvLogOk(env, st, f);
    NewChunkRun(st, dedupe, p);
    AppendedRecord(st.log, id, p.data);
    TaggedRecord(st.log, Append(st.log, id, p.data), id, p, dedupe);
    AfterTagLog(st, dedupe, p);
  }

  lemma AfterTagLog(st: Store, dedupe: bool, p: Prepared)
    ensures var id := st.reg.nextId;
            AfterTag(st, dedupe, p).log == Update(Append(st.log, id, p.data), id, Tagged(FreshSegment(id, st.log.next, |p.data|), p, dedupe))
  {
    hide Tagged, WriteAt;
  }

  lemma AppendedRecord(l: Log, id: SegmentId, data: Bytes)
    requires LogOk(l) && id !in l.segs && |data| <= U32_MAX
    ensures var l' := Append(l, id, data);
            && AllFrozen(l, l') && OnlyNew(l, l', id) && id in l'.segs && RawOf(l', id) == Some(data)
            && l'.segs[id] == FreshSegment(id, l.next, |data|)
  {
    AppendOk(l, id, data);
    hide LogOk, WriteAt;
  }

  lemma TaggedRecord(l: Log, l1: Log, id: SegmentId, p: Prepared, dedupe: bool)
    requires id !in l.segs && AllFrozen(l, l1) && OnlyNew(l, l1, id) && id in l1.segs && RawOf(l1, id) == Some(p.data)
    requires l1.segs[id] == FreshSegment(id, l.next, |p.data|)
    ensures var l2 := Update(l1, id, Tagged(FreshSegment(id, l.next, |p.data|), p, dedupe));
            RecordHas(l2, id, p, dedupe) && AllFrozen(l, l2) && OnlyNew(l, l2, id)
  {
    var l2 := Update(l1, id, Tagged(FreshSegment(id, l.next, |p.data|), p, dedupe));
    forall i | i in l.segs ensures Frozen(l, l2, i) { assert Frozen(l, l1, i); }
  }

  lemma TornFrozen(st: Store, piece: Bytes)
    requires LogOk(st.log)
    ensures var l := Run(st, [AllocStep, WriteStep(st.log.next, piece)]).log; AllFrozen(st.log, l) && l.segs == st.log.segs
  {
    TornRun(st, piece);
    WriteKeeps(st.log, st.log.next, piece, st.log.next);
    hide Run, LogOk, WriteAt;
  }

  /** One chunk of the sequential loop. */
  lemma ChunkRecord(env: Env, st: Store, f: multiset<SegmentId>, dedupe: bool, feed: Feed)
    requires Inv(env, st, f) && Sound(env, feed)
    ensures var c := WriteChunk(st, dedupe, feed); var l := Run(st, c.steps).log;
            && AllFrozen(st.log, l)
            && (c.id.Err? ==> l.segs.Keys == st.log.segs.Keys)
            && (c.id.Ok? ==> feed.prep.Ok? && c.id.value in l.segs && OnlyNew(st.log, l, c.id.value)
                             && (c.id.value !in st.log.segs ==> RecordHas(l, c.id.value, feed.prep.value, dedupe)))
  {
    hide Inv, Frozen, Run, NewChunkSteps, Sealed, RecordHas;
    if feed.prep.Err? {
      SameFrozen(st);
    } else {
      var p := feed.prep.value;
      if dedupe && p.hash in st.reg.content {
        var id := st.reg.content[p.hash];
        if id in st.log.segs { RunOne(st, IncStep(id)); HitRecords(st.log, id); } else { SameFrozen(st); }
      } else if feed.io.Torn? {
        InvLogOk(env, st, f);
        TornFrozen(st, p.data[..Min(feed.io.bytes, |p.data|)]);
      } else {
        NewRecord(env, st, f, dedupe, p);
        assert st.reg.nextId in Run(st, NewChunkSteps(st, dedupe, p)).log.segs by { RecordThere(Run(st, NewChunkSteps(st, dedupe, p)).log, st.reg.nextId, p, dedupe); }
      }
    }
  }

  lemma RecordThere(l: Log, id: SegmentId, p: Prepared, dedupe: bool)
    requires RecordHas(l, id, p, dedupe)
    ensures id in l.segs
  {
  }

  lemma SameFrozen(st: Store)
    ensures Run(st, []) == st && AllFrozen(st.log, st.log)
  {
  }

  lemma InvLogOk(env: Env, st: Store, f: multiset<SegmentId>)
    requires Inv(env, st, f)
    ensures LogOk(st.log)
  {
    hide LogOk;
  }

  lemma FrozenRecord(l: Log, l': Log, id: SegmentId, p: Prepared, dedupe: bool)
    requires RecordHas(l, id, p, dedupe) && Frozen(l, l', id)
    ensures RecordHas(l', id, p, dedupe)
  {
  }

  lemma FrozenTrans(l: Log, l1: Log, l2: Log)
    requires AllFrozen(l, l1) && AllFrozen(l1, l2)
    ensures AllFrozen(l, l2)
  {
    forall id | id in l.segs ensures Frozen(l, l2, id) { assert Frozen(l, l1, id) && Frozen(l1, l2, id); }
  }

  // ---------------------------------------------------------------- the sequential loop

  /** Every segment that is there and was not there before has the record and the bytes of one of the chunks. */
  ghost predicate NewFrom(l: Log, l': Log, dedupe: bool, feeds: seq<Feed>) {
    forall id :: id in l'.segs && id !in l.segs ==> FromFeed(l', id, dedupe, feeds)
  }

  predicate FromFeed(l: Log, id: SegmentId, dedupe: bool, feeds: seq<Feed>) {
    exists j :: 0 <= j < |feeds| && feeds[j].prep.Ok? && RecordHas(l, id, feeds[j].prep.value, dedupe)
  }

  /** The loop makes segments only of its chunks, and leaves every other alone, whether it fails or not. */
  lemma {:induction false} LoopRecords(env: Env, st: Store, f: multiset<SegmentId>, dedupe: bool, feeds: seq<Feed>)
    requires Inv(env, st, f) && Room(st.log, |feeds|)
    requires forall i :: 0 <= i < |feeds| ==> Sound(env, feeds[i])
    ensures var r := WriteLoop(st, dedupe, feeds); AllFrozen(st.log, r.st.log) && NewFrom(st.log, r.st.log, dedupe, feeds)
  {
    hide Inv, Sound, Refs, LoopInv, AllFrozen, Run;
    if feeds == [] {
      SameFrozen(st);
    } else {
      var n, init := |feeds| - 1, feeds[..|feeds| - 1];
      LoopRecords(env, st, f, dedupe, init);
      WriteLoopOk(env, st, f, dedupe, init);
      LoopUnfold(st, dedupe, feeds);
      var r := WriteLoop(st, dedupe, init);
      if r.error.Some? {
        MoreFeeds(st.log, r.st.log, dedupe, feeds);
      } else {
        LoopIs(env, st, f, r);
        ChunkRecord(env, r.st, f + multiset(r.ids), dedupe, feeds[n]);
        var c := WriteChunk(r.st, dedupe, feeds[n]);
        var l := Run(r.st, c.steps).log;
        FrozenTrans(st.log, r.st.log, l);
        NextRecords(st.log, r.st.log, l, dedupe, feeds, c);
      }
    }
  }

  lemma LoopIs(env: Env, st: Store, f: multiset<SegmentId>, r: LoopState)
    requires LoopInv(env, st, f, r)
    ensures Inv(env, r.st, f + multiset(r.ids))
  {
  }

  lemma MoreFeeds(l: Log, l': Log, dedupe: bool, feeds: seq<Feed>)
    requires feeds != [] && NewFrom(l, l', dedupe, feeds[..|feeds| - 1])
    ensures NewFrom(l, l', dedupe, feeds)
  {
    hide RecordHas;
    forall id | id in l'.segs && id !in l.segs ensures FromFeed(l', id, dedupe, feeds) {
      var j :| 0 <= j < |feeds| - 1 && feeds[..|feeds| - 1][j].prep.Ok? && RecordHas(l', id, feeds[..|feeds| - 1][j].prep.value, dedupe);
      assert feeds[j].prep.Ok? && RecordHas(l', id, feeds[j].prep.value, dedupe);
    }
  }

  lemma NextRecords(l: Log, l1: Log, l2: Log, dedupe: bool, feeds: seq<Feed>, c: ChunkResult)
    requires feeds != [] && AllFrozen(l1, l2) && NewFrom(l, l1, dedupe, feeds[..|feeds| - 1])
    requires c.id.Err? ==> l2.segs.Keys == l1.segs.Keys
    requires c.id.Ok? ==> feeds[|feeds| - 1].prep.Ok? && OnlyNew(l1, l2, c.id.value)
                          && (c.id.value !in l1.segs ==> RecordHas(l2, c.id.value, feeds[|feeds| - 1].prep.value, dedupe))
    ensures NewFrom(l, l2, dedupe, feeds)
  {
    hide RecordHas, Frozen;
    var n := |feeds| - 1;
    forall id | id in l2.segs && id !in l.segs ensures FromFeed(l2, id, dedupe, feeds) {
      if id in l1.segs {
        assert FromFeed(l1, id, dedupe, feeds[..n]);
        var j :| 0 <= j < n && feeds[..n][j].prep.Ok? && RecordHas(l1, id, feeds[..n][j].prep.value, dedupe);
        FrozenRecord(l1, l2, id, feeds[j].prep.value, dedupe);
        assert feeds[j].prep.Ok? && RecordHas(l2, id, feeds[j].prep.value, dedupe);
      } else {
        assert id in l2.segs.Keys && id !in l1.segs.Keys;
        assert feeds[n].prep.Ok? && RecordHas(l2, id, feeds[n].prep.value, dedupe);
      }
    }
  }

  // ---------------------------------------------------------------- whole writes

  /** The segment holds `chunk`: as the codec's frame where that is shorter and decodes, and else as it is; enciphered under
      key version `v` if there is one and the policy asks for it; with a record that says just that. */
  predicate RecordFor(env: Env, policy: Policy, v: Option<nat>, chunk: Bytes, l: Log, id: SegmentId) {
    && id in l.segs && RawOf(l, id).Some?
    && var s, content := l.segs[id], Content(env, policy.compression, chunk);
       && (s.compressed <==> Compresses(env, policy.compression, chunk))
       && s.algo == (if s.compressed then LabelOf(policy.compression) else Identity)
       && s.contentHash == (if policy.dedupe then Some(env.hash(content)) else None)
       && SealedWith(env, policy, v, content, s.encryption, RawOf(l, id).value)
  }

  predicate MadeByWrite(env: Env, w: Work, l: Log, id: SegmentId)
    requires !w.DeleteWork?
  {
    exists j :: 0 <= j < |Chunks(w.data)| && RecordFor(env, w.policy, w.keys(j), Chunks(w.data)[j], l, id)
  }

  lemma PreparedFor(env: Env, policy: Policy, v: Option<nat>, chunk: Bytes, l: Log, id: SegmentId)
    requires Prepare(env, policy, v, chunk).Ok? && RecordHas(l, id, Prepare(env, policy, v, chunk).value, policy.dedupe)
    ensures RecordFor(env, policy, v, chunk, l, id)
  {
    PreparedExact(env, policy, v, chunk);
    hide Prepare, Compresses, Content;
  }

  /** Every segment that a write makes, sequential or asynchronous, holds one of its chunks, under the key version that was
      current for it; and no other segment's record or bytes change. */
  lemma WriteRecords(env: Env, st: Store, f: multiset<SegmentId>, w: Work)
    requires !w.DeleteWork? && Possible(env, w) && SoundCipher(env) && Inv(env, st, f) && Room(st.log, ChunkCount(w))
    requires w.SyncWork? || ProgramOf(env, st, w).outcome.Ok?
    ensures var l := Run(st, ProgramOf(env, st, w).steps).log;
            && AllFrozen(st.log, l)
            && forall id :: id in l.segs && id !in st.log.segs ==> MadeByWrite(env, w, l, id)
  {
    hide Inv, SoundCipher, Chunks, Prepare, Run, Refs, Sealed, AllFrozen, RecordHas, RecordFor, SyncWrite, AsyncWrite.AsyncWrite;
    var l := Run(st, ProgramOf(env, st, w).steps).log;
    ResultsSound(env, w.data, w.policy, w.keys);
    var results := Results(env, w.data, w.policy, w.keys);
    if w.SyncWork? {
      var feeds := FeedsOf(env, w.data, w.policy, w.keys, w.devices);
      SyncRecords(env, st, f, w.cid, |w.data|, w.policy, feeds);
      FeedsMade(env, w, feeds, st.log, l);
    } else {
      ChunksPartition(w.data);
      AsyncRefinesSync(env, st, f, w.cid, |w.data|, w.policy, results, w.arrivals, w.device);
      var feeds := Feeds(Values(results));
      var s := SyncWrite(st, w.cid, |w.data|, w.policy, feeds);
      SyncRecords(env, st, f, w.cid, |w.data|, w.policy, feeds);
      AgreeRecords(st.log, Run(st, s.steps), Run(st, ProgramOf(env, st, w).steps), w.policy.dedupe, feeds);
      FeedsMade(env, w, feeds, st.log, l);
    }
  }

  lemma SyncRecords(env: Env, st: Store, f: multiset<SegmentId>, cid: CapsuleId, size: nat, policy: Policy, feeds: seq<Feed>)
    requires Inv(env, st, f) && Room(st.log, |feeds|) && forall i :: 0 <= i < |feeds| ==> Sound(env, feeds[i])
    ensures var l := Run(st, SyncWrite(st, cid, size, policy, feeds).steps).log;
            AllFrozen(st.log, l) && NewFrom(st.log, l, policy.dedupe, feeds)
  {
    hide Inv, Sound, Refs, AllFrozen, NewFrom, Run, WriteLoop, LoopInv;
    LoopRecords(env, st, f, policy.dedupe, feeds);
    WriteLoopOk(env, st, f, policy.dedupe, feeds);
    var r := WriteLoop(st, policy.dedupe, feeds);
    LoopRuns(env, st, f, r);
    RunSnoc(st, r.steps, CreateStep(cid, Capsule(size, r.ids, policy)));
  }

  /** What was prepared is what the data's chunks are prepared to. */
  lemma FeedsMade(env: Env, w: Work, feeds: seq<Feed>, l: Log, l': Log)
    requires !w.DeleteWork? && NewFrom(l, l', w.policy.dedupe, feeds)
    requires var results := Results(env, w.data, w.policy, w.keys);
             |feeds| == |results| && forall i :: 0 <= i < |feeds| ==> feeds[i].prep == results[i]
    ensures forall id :: id in l'.segs && id !in l.segs ==> MadeByWrite(env, w, l', id)
  {
    hide Chunks, Prepare, RecordHas, RecordFor;
    forall id | id in l'.segs && id !in l.segs ensures MadeByWrite(env, w, l', id) {
      assert FromFeed(l', id, w.policy.dedupe, feeds);
      var j :| 0 <= j < |feeds| && feeds[j].prep.Ok? && RecordHas(l', id, feeds[j].prep.value, w.policy.dedupe);
      PreparedFor(env, w.policy, w.keys(j), Chunks(w.data)[j], l', id);
      assert RecordFor(env, w.policy, w.keys(j), Chunks(w.data)[j], l', id);
    }
  }

  lemma AgreeRecords(l: Log, a: Store, b: Store, dedupe: bool, feeds: seq<Feed>)
    requires Agree(a, b) && AllFrozen(l, a.log) && NewFrom(l, a.log, dedupe, feeds)
    ensures AllFrozen(l, b.log) && NewFrom(l, b.log, dedupe, feeds)
  {
    forall id | id in l.segs ensures Frozen(l, b.log, id) {
      assert Frozen(l, a.log, id);
      SameSegsAt(a.log.segs, b.log.segs, id);
    }
    forall id | id in b.log.segs && id !in l.segs ensures FromFeed(b.log, id, dedupe, feeds) {
      SameSegsAt(a.log.segs, b.log.segs, id);
      assert FromFeed(a.log, id, dedupe, feeds);
      var j :| 0 <= j < |feeds| && feeds[j].prep.Ok? && RecordHas(a.log, id, feeds[j].prep.value, dedupe);
      assert RecordHas(b.log, id, feeds[j].prep.value, dedupe);
    }
  }

  // ---------------------------------------------------------------- when a sequential write succeeds

  /** The codec does not fail on the chunk, and if it is to be enciphered it is long enough. */
  predicate Preparable(env: Env, policy: Policy, v: Option<nat>, chunk: Bytes) {
    var c := policy.compression;
    && (Tried(env, c, chunk) ==> Frame(env, c, chunk).Some? && (Shrinks(env, c, chunk) ==> Restores(env, c, chunk)))
    && (policy.encrypt && v.Some? ==> |Content(env, c, chunk)| >= MIN_SECTOR_SIZE)
  }

  /** Its content is stored, or an earlier chunk has the same. */
  predicate Duplicate(env: Env, st: Store, policy: Policy, chunks: seq<Bytes>, i: nat)
    requires i < |chunks|
  {
    && policy.dedupe
    && var h := env.hash(Content(env, policy.compression, chunks[i]));
       h in st.reg.content || exists j :: 0 <= j < i && env.hash(Content(env, policy.compression, chunks[j])) == h
  }

  /** Every chunk can be prepared, and the device works for every one that is not a duplicate. */
  predicate AllWork(env: Env, st: Store, policy: Policy, keys: nat -> Option<nat>, chunks: seq<Bytes>, devices: nat -> Io) {
    forall i :: 0 <= i < |chunks| ==>
      Preparable(env, policy, keys(i), chunks[i]) && (devices(i).Good? || Duplicate(env, st, policy, chunks, i))
  }

  lemma PreparableIff(env: Env, policy: Policy, v: Option<nat>, chunk: Bytes)
    ensures Prepare(env, policy, v, chunk).Ok? <==> Preparable(env, policy, v, chunk)
    ensures Prepare(env, policy, v, chunk).Ok? ==> Prepare(env, policy, v, chunk).value.hash == env.hash(Content(env, policy.compression, chunk))
  {
    PreparedExact(env, policy, v, chunk);
    CompressedIff(env, policy.compression, chunk);
    hide Prepare, AdaptiveCompress, Content;
  }

  /** A sequential write succeeds exactly if its id is free, every chunk of its data can be prepared, and the device works
      for every chunk that is not a duplicate. */
  lemma SyncSucceedsOn(env: Env, st: Store, f: multiset<SegmentId>, w: Work)
    requires w.SyncWork? && SoundCipher(env) && Inv(env, st, f) && Room(st.log, ChunkCount(w))
    ensures ProgramOf(env, st, w).outcome.Ok? <==> w.cid !in st.reg.capsules && AllWork(env, st, w.policy, w.keys, Chunks(w.data), w.devices)
  {
    hide Inv, SoundCipher, Chunks, Prepare, Refs, SyncWrite, Preparable, Content, Room, Sealed;
    ResultsSound(env, w.data, w.policy, w.keys);
    var chunks, feeds := Chunks(w.data), FeedsOf(env, w.data, w.policy, w.keys, w.devices);
    SyncSucceedsIff(env, st, f, w.cid, |w.data|, w.policy, feeds);
    forall i | 0 <= i < |chunks|
      ensures feeds[i].prep.Ok? <==> Preparable(env, w.policy, w.keys(i), chunks[i])
      ensures feeds[i].prep.Ok? ==> feeds[i].prep.value.hash == env.hash(Content(env, w.policy.compression, chunks[i]))
    {
      PreparableIff(env, w.policy, w.keys(i), chunks[i]);
    }
    WorksTogether(env, st, w.policy, w.keys, chunks, w.devices, feeds);
  }

  lemma WorksTogether(env: Env, st: Store, policy: Policy, keys: nat -> Option<nat>, chunks: seq<Bytes>, devices: nat -> Io, feeds: seq<Feed>)
    requires |feeds| == |chunks| && forall i :: 0 <= i < |chunks| ==>
      && (feeds[i].prep.Ok? <==> Preparable(env, policy, keys(i), chunks[i])) && feeds[i].io == devices(i)
      && (feeds[i].prep.Ok? ==> feeds[i].prep.value.hash == env.hash(Content(env, policy.compression, chunks[i])))
    ensures (forall i :: 0 <= i < |feeds| ==> Writable(st, policy.dedupe, feeds, i)) <==> AllWork(env, st, policy, keys, chunks, devices)
  {
    hide Preparable, Content;
    if forall i :: 0 <= i < |feeds| ==> feeds[i].prep.Ok? {
      forall i | 0 <= i < |feeds| ensures Writable(st, policy.dedupe, feeds, i) <==> devices(i).Good? || Duplicate(env, st, policy, chunks, i) {
        EarlierIff(env, policy, chunks, feeds, i);
      }
    } else {
      var i :| 0 <= i < |feeds| && feeds[i].prep.Err?;
      assert !Writable(st, policy.dedupe, feeds, i) && !Preparable(env, policy, keys(i), chunks[i]);
    }
  }

  lemma EarlierIff(env: Env, policy: Policy, chunks: seq<Bytes>, feeds: seq<Feed>, i: nat)
    requires i < |feeds| == |chunks|
    requires forall j :: 0 <= j < |feeds| ==>
      feeds[j].prep.Ok? && feeds[j].prep.value.hash == env.hash(Content(env, policy.compression, chunks[j]))
    ensures var h := env.hash(Content(env, policy.compression, chunks[i]));
            Earlier(feeds, i, h) <==> exists j :: 0 <= j < i && env.hash(Content(env, policy.compression, chunks[j])) == h
  {
    hide Content;
    var h := env.hash(Content(env, policy.compression, chunks[i]));
    if Earlier(feeds, i, h) {
      var j :| 0 <= j < i && feeds[j].prep.Ok? && feeds[j].prep.value.hash == h;
      assert env.hash(Content(env, policy.compression, chunks[j])) == h;
    }
    if j :| 0 <= j < i && env.hash(Content(env, policy.compression, chunks[j])) == h {
      assert feeds[j].prep.Ok? && feeds[j].prep.value.hash == h;
    }
  }

  // ---------------------------------------------------------------- reading without the keys

  /** Keys are loaded for all chunks or for none. */
  predicate Loaded(w: Work, loaded: bool)
    requires !w.DeleteWork?
  {
    forall i :: 0 <= i < |Chunks(w.data)| ==> (w.keys(i).Some? <==> loaded)
  }

  /** A pipeline without keys cannot read a new capsule exactly if it was written with keys under an encrypting policy
      (and is not empty). */
  lemma UnreadableIff(env: Env, st: Store, f: multiset<SegmentId>, w: Work, loaded: bool)
    requires !w.DeleteWork? && Possible(env, w) && SoundCipher(env) && CollisionFree(env) && Inv(env, st, f) && Room(st.log, ChunkCount(w))
    requires ProgramOf(env, st, w).outcome.Ok? && Loaded(w, loaded)
    requires var st' := Run(st, ProgramOf(env, st, w).steps);
             w.cid in st'.reg.capsules && forall id :: id in st'.reg.capsules[w.cid].segments ==> id in st'.log.segs && id !in st.log.segs
    ensures var st' := Run(st, ProgramOf(env, st, w).steps); var ids := st'.reg.capsules[w.cid].segments;
            BytesWith(env, st', w.cid, false) == Err(KeyManagerMissing) <==> w.policy.encrypt && loaded && ids != []
    ensures var st' := Run(st, ProgramOf(env, st, w).steps);
            BytesWith(env, st', w.cid, true) == Ok(Stored(env, w))
  {
    hide Inv, SoundCipher, CollisionFree, Chunks, Run, Refs, ProgramOf, Stored, ReadSegments, ReadWith, RecordFor;
    var st' := Run(st, ProgramOf(env, st, w).steps);
    var c := st'.reg.capsules[w.cid];
    H.WriteReads(env, st, f, w);
    WriteRecords(env, st, f, w);
    ReadWithIff(env, st'.log, c.policy.compression, c.segments);
    forall id | id in c.segments ensures st'.log.segs[id].encryption.Some? <==> w.policy.encrypt && loaded {
      assert MadeByWrite(env, w, st'.log, id);
      var j :| 0 <= j < |Chunks(w.data)| && RecordFor(env, w.policy, w.keys(j), Chunks(w.data)[j], st'.log, id);
      EncryptedIff(env, w.policy, w.keys(j), Chunks(w.data)[j], st'.log, id);
    }
    if c.segments != [] { assert c.segments[0] in c.segments; }
    if Encrypted(st'.log, c.segments) {
      var i :| 0 <= i < |c.segments| && c.segments[i] in st'.log.segs && st'.log.segs[c.segments[i]].encryption.Some?;
      assert c.segments[i] in c.segments;
    }
  }

  lemma EncryptedIff(env: Env, policy: Policy, v: Option<nat>, chunk: Bytes, l: Log, id: SegmentId)
    requires RecordFor(env, policy, v, chunk, l, id)
    ensures l.segs[id].encryption.Some? <==> policy.encrypt && v.Some?
  {
    hide Compresses, Content;
  }

  // ---------------------------------------------------------------- bytes that do not belong to their record

  /** The stored bytes do not carry the segment's tag. */
  predicate TagMismatch(env: Env, l: Log, id: SegmentId)
    requires id in l.segs && RawOf(l, id).Some? && l.segs[id].encryption.Some?
  {
    var e := l.segs[id].encryption.value;
    env.mac(e.keyVersion, RawOf(l, id).value, e.version, e.tweak) != e.tag
  }

  /** Why a segment cannot be read: it is not there, its range is not in the file, its key is missing, its tag does not
      match, or it is too short to be deciphered; in this order. */
  function Fault(env: Env, l: Log, id: SegmentId, keys: bool): Option<Error> {
    if id !in l.segs then Some(SegmentNotFound)
    else if RawOf(l, id).None? then Some(ReadPastEnd)
    else if l.segs[id].encryption.None? then None
    else if !keys then Some(KeyManagerMissing)
    else if TagMismatch(env, l, id) then Some(IntegrityFailure)
    else if |RawOf(l, id).value| < MIN_SECTOR_SIZE then Some(InvalidCiphertextLength)
    else None
  }

  lemma ReadStep(env: Env, l: Log, c: Compression, ids: seq<SegmentId>, keys: bool)
    requires ids != []
    ensures var n := |ids| - 1; var before, fault := ReadWith(env, l, c, ids[..n], keys), Fault(env, l, ids[n], keys);
            && (before.Err? ==> ReadWith(env, l, c, ids, keys) == before)
            && (before.Ok? && fault.Some? ==> ReadWith(env, l, c, ids, keys) == Err(fault.value))
            && (before.Ok? && fault.None? ==> ReadWith(env, l, c, ids, keys).Ok?)
  {
  }

  predicate Faultless(env: Env, l: Log, ids: seq<SegmentId>, n: nat, keys: bool)
    requires n <= |ids|
  {
    forall i :: 0 <= i < n ==> Fault(env, l, ids[i], keys).None?
  }

  lemma FaultlessInit(env: Env, l: Log, ids: seq<SegmentId>, i: nat, keys: bool)
    requires i < |ids|
    ensures Faultless(env, l, ids, i, keys) <==> Faultless(env, l, ids[..|ids| - 1], i, keys)
  {
    hide Fault;
  }

  lemma FaultlessNext(env: Env, l: Log, ids: seq<SegmentId>, keys: bool)
    requires ids != []
    ensures var n := |ids| - 1;
            Faultless(env, l, ids, n + 1, keys) <==> Faultless(env, l, ids, n, keys) && Fault(env, l, ids[n], keys).None?
  {
    hide Fault;
  }

  /** A read succeeds exactly if no segment is at fault, and fails with the fault of the first that is. */
  lemma {:induction false} ReadFaults(env: Env, l: Log, c: Compression, ids: seq<SegmentId>, keys: bool)
    ensures ReadWith(env, l, c, ids, keys).Ok? <==> Faultless(env, l, ids, |ids|, keys)
    ensures forall n :: 0 <= n < |ids| && Fault(env, l, ids[n], keys).Some? && Faultless(env, l, ids, n, keys) ==>
      ReadWith(env, l, c, ids, keys) == Err(Fault(env, l, ids[n], keys).value)
  {
    if ids != [] {
      var n := |ids| - 1;
      ReadStep(env, l, c, ids, keys);
      hide ReadWith, Fault, Faultless;
      ReadFaults(env, l, c, ids[..n], keys);
      forall i | 0 <= i <= n ensures Faultless(env, l, ids, i, keys) <==> Faultless(env, l, ids[..n], i, keys) {
        FaultlessInit(env, l, ids, i, keys);
      }
      FaultlessNext(env, l, ids, keys);
    } else {
      assert ReadWith(env, l, c, ids, keys) == Ok([]);
    }
  }

  /** The read of a capsule fails for integrity exactly if the first segment at fault is encrypted, the keys are there, and
      the tag over its stored bytes under its own key version, format version and tweak is not the stored one. Bytes that
      do not carry their tag are never read. */
  lemma IntegrityIff(env: Env, st: Store, cid: CapsuleId, keys: bool, n: nat)
    requires cid in st.reg.capsules && n < |st.reg.capsules[cid].segments|
    requires Faultless(env, st.log, st.reg.capsules[cid].segments, n, keys)
    requires Fault(env, st.log, st.reg.capsules[cid].segments[n], keys).Some?
    ensures var id, l := st.reg.capsules[cid].segments[n], st.log;
            BytesWith(env, st, cid, keys) == Err(IntegrityFailure) <==>
              id in l.segs && RawOf(l, id).Some? && l.segs[id].encryption.Some? && keys && TagMismatch(env, l, id)
  {
    ReadFaults(env, st.log, st.reg.capsules[cid].policy.compression, st.reg.capsules[cid].segments, keys);
    hide ReadWith, TagMismatch, RawOf;
  }

  lemma TamperedRefused(env: Env, st: Store, cid: CapsuleId, keys: bool, id: SegmentId)
    requires cid in st.reg.capsules && id in st.reg.capsules[cid].segments
    requires id in st.log.segs && RawOf(st.log, id).Some? && st.log.segs[id].encryption.Some? && TagMismatch(env, st.log, id)
    ensures BytesWith(env, st, cid, keys).Err?
  {
    var ids := st.reg.capsules[cid].segments;
    ReadFaults(env, st.log, st.reg.capsules[cid].policy.compression, ids, keys);
    var i :| 0 <= i < |ids| && ids[i] == id;
    assert Fault(env, st.log, ids[i], keys).Some?;
    hide ReadWith;
  }
}
