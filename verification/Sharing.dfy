/** What deduplication is for: chunks share segments exactly if their contents have the same hash. */
module Sharing {
  import opened Types
  import opened Codec
  import opened NvramSim
  import opened Registry
  import opened Store
  import opened Programs
  import opened AsyncWrite
  import opened Refinement
  import opened AsyncMain
  import opened Runs
  import opened Records

  // ---------------------------------------------------------------- one chunk

  /** The segment is the one that the content store names, or it is new, and then the content store names it. */
  lemma ChunkShares(env: Env, st: Store, f: multiset<SegmentId>, dedupe: bool, feed: Feed)
    requires Inv(env, st, f) && Sound(env, feed) && WriteChunk(st, dedupe, feed).id.Ok?
    ensures var c := WriteChunk(st, dedupe, feed); var st' := Run(st, c.steps);
            feed.prep.Ok? &&
            if dedupe && feed.prep.value.hash in st.reg.content then
              c.id.value == st.reg.content[feed.prep.value.hash] && st'.reg.content == st.reg.content
            else
              && c.id.value !in st.log.segs
              && (dedupe ==> st'.reg.content == st.reg.content[feed.prep.value.hash := c.id.value])
  {
    hide Inv, Run, Sealed, NewChunkSteps, AfterTag;
    var p := feed.prep.value;
    if dedupe && p.hash in st.reg.content {
      RunOne(st, IncStep(st.reg.content[p.hash]));
    } else {
      FreshId(env, st, f);
      NewChunkRun(st, dedupe, p);
      AfterTagContent(st, dedupe, p);
    }
  }

  lemma AfterTagContent(st: Store, dedupe: bool, p: Prepared)
    ensures AfterTag(st, dedupe, p).reg.content == st.reg.content
  {
    hide Tagged, WriteAt;
  }

  // ---------------------------------------------------------------- the sequential loop

  /** Every id is the one that the content store now names for its chunk; what it named before it still names; what it did not
      name before is new. */
  predicate Shared(st: Store, r: LoopState, feeds: seq<Feed>) {
    && |r.ids| == |feeds|
    && (forall i :: 0 <= i < |feeds| ==> NamedBy(r.st, feeds[i], r.ids[i]))
    && (forall h :: h in st.reg.content ==> h in r.st.reg.content && r.st.reg.content[h] == st.reg.content[h])
    && (forall h :: h in r.st.reg.content && h !in st.reg.content ==> r.st.reg.content[h] !in st.log.segs)
  }

  predicate NamedBy(st: Store, feed: Feed, id: SegmentId) {
    feed.prep.Ok? && feed.prep.value.hash in st.reg.content && st.reg.content[feed.prep.value.hash] == id
  }

  /** Every chunk has a new segment of its own. */
  predicate Separate(st: Store, r: LoopState, feeds: seq<Feed>) {
    && |r.ids| == |feeds|
    && (forall i :: 0 <= i < |feeds| ==> feeds[i].prep.Ok? && r.ids[i] !in st.log.segs && r.ids[i] in r.st.log.segs)
    && forall i, j :: 0 <= i < j < |feeds| ==> r.ids[i] != r.ids[j]
  }

  lemma {:induction false} LoopShares(env: Env, st: Store, f: multiset<SegmentId>, dedupe: bool, feeds: seq<Feed>)
    requires Inv(env, st, f) && Room(st.log, |feeds|)
    requires forall i :: 0 <= i < |feeds| ==> Sound(env, feeds[i])
    ensures var r := WriteLoop(st, dedupe, feeds); r.error.None? ==> if dedupe then Shared(st, r, feeds) else Separate(st, r, feeds)
  {
    hide Inv, Sound, Refs, LoopInv, AllFrozen, Run, WriteChunk, Shared, Separate, WriteLoop, NewFrom;
    if feeds == [] {
      SharesNothing(st, dedupe);
    } else {
      var n, init := |feeds| - 1, feeds[..|feeds| - 1];
      LoopShares(env, st, f, dedupe, init);
      WriteLoopOk(env, st, f, dedupe, init);
      LoopUnfold(st, dedupe, feeds);
      var r := WriteLoop(st, dedupe, init);
      var c := WriteChunk(r.st, dedupe, feeds[n]);
      if r.error.None? && c.id.Ok? {
        LoopIs(env, st, f, r);
        LoopRecords(env, st, f, dedupe, init);
        ChunkShares(env, r.st, f + multiset(r.ids), dedupe, feeds[n]);
        ChunkRecord(env, r.st, f + multiset(r.ids), dedupe, feeds[n]);
        var r' := LoopStep(r, dedupe, feeds[n]);
        if dedupe { SharedMore(st, r, r', feeds); } else { SeparateMore(st, r, r', feeds); }
      }
    }
  }

  lemma SharesNothing(st: Store, dedupe: bool)
    ensures WriteLoop(st, dedupe, []) == LoopState(st, [], [], None)
    ensures Shared(st, LoopState(st, [], [], None), []) && Separate(st, LoopState(st, [], [], None), [])
  {
  }

  lemma SharedMore(st: Store, r: LoopState, r': LoopState, feeds: seq<Feed>)
    requires feeds != [] && Shared(st, r, feeds[..|feeds| - 1]) && AllFrozen(st.log, r.st.log)
    requires r'.ids != [] && r'.ids == r.ids + [r'.ids[|r'.ids| - 1]] && feeds[|feeds| - 1].prep.Ok?
    requires var h, id := feeds[|feeds| - 1].prep.value.hash, r'.ids[|r'.ids| - 1];
             if h in r.st.reg.content then id == r.st.reg.content[h] && r'.st.reg.content == r.st.reg.content
             else id !in r.st.log.segs && r'.st.reg.content == r.st.reg.content[h := id]
    ensures Shared(st, r', feeds)
  {
    hide Frozen;
    var n := |feeds| - 1;
    forall i | 0 <= i < |feeds| ensures NamedBy(r'.st, feeds[i], r'.ids[i]) {
      if i < n { assert NamedBy(r.st, feeds[..n][i], r.ids[i]); }
    }
    forall id | id in st.log.segs ensures id in r.st.log.segs {
      FrozenThere(st.log, r.st.log, id);
    }
  }

  lemma FrozenThere(l: Log, l': Log, id: SegmentId)
    requires AllFrozen(l, l') && id in l.segs
    ensures id in l'.segs
  {
    assert Frozen(l, l', id);
  }

  lemma SeparateMore(st: Store, r: LoopState, r': LoopState, feeds: seq<Feed>)
    requires feeds != [] && Separate(st, r, feeds[..|feeds| - 1]) && AllFrozen(st.log, r.st.log) && AllFrozen(r.st.log, r'.st.log)
    requires r'.ids != [] && r'.ids == r.ids + [r'.ids[|r'.ids| - 1]] && feeds[|feeds| - 1].prep.Ok?
    requires r'.ids[|r'.ids| - 1] !in r.st.log.segs && r'.ids[|r'.ids| - 1] in r'.st.log.segs
    ensures Separate(st, r', feeds)
  {
    hide Frozen;
    var n := |feeds| - 1;
    forall id | id in st.log.segs ensures id in r.st.log.segs { FrozenThere(st.log, r.st.log, id); }
    forall i | 0 <= i < |feeds| ensures feeds[i].prep.Ok? && r'.ids[i] !in st.log.segs && r'.ids[i] in r'.st.log.segs {
      if i < n {
        assert feeds[..n][i] == feeds[i];
        FrozenThere(r.st.log, r'.st.log, r.ids[i]);
      }
    }
  }

  // ---------------------------------------------------------------- whole writes

  function HashOf(env: Env, policy: Policy, chunk: Bytes): ContentHash { env.hash(Content(env, policy.compression, chunk)) }

  /** With deduplication two chunks have one segment exactly if their contents have one hash, and a chunk has an old segment
      exactly if the content store knew its hash; without, every chunk has a new segment of its own. */
  ghost predicate SharesExactly(env: Env, st: Store, policy: Policy, chunks: seq<Bytes>, ids: seq<SegmentId>) {
    && |ids| == |chunks|
    && if policy.dedupe then
         && (forall i, j :: 0 <= i < |ids| && 0 <= j < |ids| ==>
               (ids[i] == ids[j] <==> HashOf(env, policy, chunks[i]) == HashOf(env, policy, chunks[j])))
         && (forall i :: 0 <= i < |ids| ==> ChosenFor(env, st, policy, chunks[i], ids[i]))
       else
         && (forall i, j :: 0 <= i < j < |ids| ==> ids[i] != ids[j])
         && forall i :: 0 <= i < |ids| ==> ids[i] !in st.log.segs
  }

  predicate ChosenFor(env: Env, st: Store, policy: Policy, chunk: Bytes, id: SegmentId) {
    var h := HashOf(env, policy, chunk);
    if h in st.reg.content then id == st.reg.content[h] else id !in st.log.segs
  }

  lemma FeedsShare(env: Env, st: Store, f: multiset<SegmentId>, policy: Policy, chunks: seq<Bytes>, feeds: seq<Feed>)
    requires Inv(env, st, f) && Room(st.log, |feeds|) && |feeds| == |chunks|
    requires forall i :: 0 <= i < |feeds| ==>
      Sound(env, feeds[i]) && (feeds[i].prep.Ok? ==> feeds[i].prep.value.hash == HashOf(env, policy, chunks[i]))
    requires WriteLoop(st, policy.dedupe, feeds).error.None?
    ensures SharesExactly(env, st, policy, chunks, WriteLoop(st, policy.dedupe, feeds).ids)
  {
    hide Inv, Sound, Refs, LoopInv, WriteLoop, HashOf, Run;
    LoopShares(env, st, f, policy.dedupe, feeds);
    WriteLoopOk(env, st, f, policy.dedupe, feeds);
    var r := WriteLoop(st, policy.dedupe, feeds);
    LoopIs(env, st, f, r);
    if policy.dedupe {
      NamesApart(env, r.st, f + multiset(r.ids));
      forall i | 0 <= i < |feeds|
        ensures HashOf(env, policy, chunks[i]) in r.st.reg.content && r.st.reg.content[HashOf(env, policy, chunks[i])] == r.ids[i]
      {
        assert NamedBy(r.st, feeds[i], r.ids[i]);
      }
    }
  }

  lemma NamesApart(env: Env, st: Store, f: multiset<SegmentId>)
    requires Inv(env, st, f)
    ensures forall g, h :: g in st.reg.content && h in st.reg.content && st.reg.content[g] == st.reg.content[h] ==> g == h
  {
    assert Indexed(st);
  }

  /** A write that succeeds, sequential or asynchronous, shares segments between its chunks and with what is stored exactly as
      the hashes say. */
  lemma WriteShares(env: Env, st: Store, f: multiset<SegmentId>, w: Work)
    requires !w.DeleteWork? && Possible(env, w) && SoundCipher(env) && Inv(env, st, f) && Room(st.log, ChunkCount(w))
    requires ProgramOf(env, st, w).outcome.Ok?
    ensures var st' := Run(st, ProgramOf(env, st, w).steps);
            && w.cid in st'.reg.capsules && st'.reg.capsules[w.cid].policy == w.policy && st'.reg.capsules[w.cid].size == |w.data|
            && SharesExactly(env, st, w.policy, Chunks(w.data), st'.reg.capsules[w.cid].segments)
  {
    hide Inv, SoundCipher, Chunks, Prepare, Run, Refs, Sealed, SyncWrite, AsyncWrite.AsyncWrite, SharesExactly, HashOf;
    ResultsSound(env, w.data, w.policy, w.keys);
    var results := Results(env, w.data, w.policy, w.keys);
    forall i | 0 <= i < |results| && results[i].Ok? ensures results[i].value.hash == HashOf(env, w.policy, Chunks(w.data)[i]) {
      ResultHash(env, w.policy, w.keys(i), Chunks(w.data)[i]);
    }
    if w.SyncWork? {
      SyncShares(env, st, f, w.cid, |w.data|, w.policy, Chunks(w.data), FeedsOf(env, w.data, w.policy, w.keys, w.devices));
    } else {
      ChunksPartition(w.data);
      AsyncRefinesSync(env, st, f, w.cid, |w.data|, w.policy, results, w.arrivals, w.device);
      SyncShares(env, st, f, w.cid, |w.data|, w.policy, Chunks(w.data), Feeds(Values(results)));
    }
  }

  lemma ResultHash(env: Env, policy: Policy, v: Option<nat>, chunk: Bytes)
    requires Prepare(env, policy, v, chunk).Ok?
    ensures Prepare(env, policy, v, chunk).value.hash == HashOf(env, policy, chunk)
  {
    hide Content;
    PreparableIff(env, policy, v, chunk);
  }

  lemma SyncShares(env: Env, st: Store, f: multiset<SegmentId>, cid: CapsuleId, size: nat, policy: Policy, chunks: seq<Bytes>, feeds: seq<Feed>)
    requires Inv(env, st, f) && Room(st.log, |feeds|) && |feeds| == |chunks|
    requires forall i :: 0 <= i < |feeds| ==>
      Sound(env, feeds[i]) && (feeds[i].prep.Ok? ==> feeds[i].prep.value.hash == HashOf(env, policy, chunks[i]))
    requires SyncWrite(st, cid, size, policy, feeds).outcome.Ok?
    ensures var st' := Run(st, SyncWrite(st, cid, size, policy, feeds).steps);
            && cid in st'.reg.capsules && st'.reg.capsules[cid].policy == policy && st'.reg.capsules[cid].size == size
            && SharesExactly(env, st, policy, chunks, st'.reg.capsules[cid].segments)
  {
    hide Inv, Sound, Refs, LoopInv, WriteLoop, HashOf, Run, SharesExactly;
    FeedsShare(env, st, f, policy, chunks, feeds);
    WriteLoopOk(env, st, f, policy.dedupe, feeds);
    var r := WriteLoop(st, policy.dedupe, feeds);
    LoopRuns(env, st, f, r);
    RunSnoc(st, r.steps, CreateStep(cid, Capsule(size, r.ids, policy)));
  }
}
