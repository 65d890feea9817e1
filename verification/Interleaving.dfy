/** What the pipeline's calls do to each other when their steps interleave; no lock of the pipeline prevents it. */
module Interleaving {
  import opened Types
  import opened Codec
  import opened NvramSim
  import opened Registry
  import opened Store
  import opened Programs

  /** A one-chunk write that runs after the first `k` steps with which a delete releases segment `id`. */
  function WriteInside(st: Store, id: SegmentId, k: nat, cid: CapsuleId, size: nat, policy: Policy, p: Prepared): (r: (Result<CapsuleId>, Store))
    requires id in st.log.segs && st.log.segs[id].refCount > 0 && k <= |ReleaseSteps(st, id)|
  {
    var steps := ReleaseSteps(st, id);
    var w := SyncWrite(Run(st, steps[..k]), cid, size, policy, [Feed(Ok(p), Good)]);
    (w.outcome, Run(Run(Run(st, steps[..k]), w.steps), steps[k..]))
  }

  /** A delete is releasing the last reference to a segment that the chunk duplicates. The write succeeds wherever it
      falls. If it falls right after the decrement it finds the segment, takes a reference and loses it again: its
      capsule names a removed segment. Once the content entry is gone it is safe. */
  lemma WriteInsideRelease(env: Env, st: Store, f: multiset<SegmentId>, id: SegmentId, k: nat, cid: CapsuleId, size: nat, policy: Policy, p: Prepared)
    requires Inv(env, st, f) && id in f && st.log.segs[id].refCount == 1
    requires p.hash in st.reg.content && st.reg.content[p.hash] == id && policy.dedupe && cid !in st.reg.capsules
    requires 1 <= k <= 3
    ensures |ReleaseSteps(st, id)| == 3
    ensures var (outcome, end) := WriteInside(st, id, k, cid, size, policy, p);
            && outcome == Ok(cid) && cid in end.reg.capsules
            && (Referenced(end) <==> k != 1)
            && (k == 1 ==> end.reg.capsules[cid].segments == [id] && id !in end.log.segs)
  {
    hide Hashed, LogOk, Bounded, Flagged;
    Released(env, st, f, id, p.hash);
    if k == 1 { HitInside(st, id, cid, size, policy, p); } else { MissInside(env, st, f, id, k, cid, size, policy, p); }
  }

  lemma Released(env: Env, st: Store, f: multiset<SegmentId>, id: SegmentId, h: ContentHash)
    requires Counted(st, f) && Indexed(st) && id in f && h in st.reg.content && st.reg.content[h] == id
    requires id in st.log.segs && st.log.segs[id].refCount == 1
    ensures ReleaseSteps(st, id) == [DecStep(id), DeregisterStep(h, id), RemoveStep(id)]
    ensures forall c :: c in st.reg.capsules ==> id !in st.reg.capsules[c].segments
  {
    RefsMember(st.reg.capsules, id);
  }

  lemma HitInside(st: Store, id: SegmentId, cid: CapsuleId, size: nat, policy: Policy, p: Prepared)
    requires id in st.log.segs && st.log.segs[id].refCount == 1 && ReleaseSteps(st, id) == [DecStep(id), DeregisterStep(p.hash, id), RemoveStep(id)]
    requires p.hash in st.reg.content && st.reg.content[p.hash] == id && policy.dedupe && cid !in st.reg.capsules
    ensures var (outcome, end) := WriteInside(st, id, 1, cid, size, policy, p);
            && outcome == Ok(cid) && cid in end.reg.capsules && end.reg.capsules[cid].segments == [id] && id !in end.log.segs
  {
    var steps := ReleaseSteps(st, id);
    var mid := Do(st, DecStep(id));
    assert steps[..1] == [DecStep(id)] && steps[1..] == [DeregisterStep(p.hash, id), RemoveStep(id)];
    RunOne(st, DecStep(id));
    LastDecrement(st, id);
    OneHit(mid, id, cid, size, policy, p);
    var written := Do(Do(mid, IncStep(id)), CreateStep(cid, Capsule(size, [id], policy)));
    RunTwo(written, DeregisterStep(p.hash, id), RemoveStep(id));
    HitEnd(mid, id, cid, Capsule(size, [id], policy), p.hash);
    hide SyncWrite, ReleaseSteps, Do, Run;
  }

  lemma LastDecrement(st: Store, id: SegmentId)
    requires id in st.log.segs && st.log.segs[id].refCount == 1
    ensures var mid := Do(st, DecStep(id)); id in mid.log.segs && mid.reg == st.reg
  {
  }

  lemma HitEnd(mid: Store, id: SegmentId, cid: CapsuleId, c: Capsule, h: ContentHash)
    requires cid !in mid.reg.capsules
    ensures var end := Do(Do(Do(Do(mid, IncStep(id)), CreateStep(cid, c)), DeregisterStep(h, id)), RemoveStep(id));
            cid in end.reg.capsules && end.reg.capsules[cid] == c && id !in end.log.segs
  {
  }

  /** A write of one stored chunk. */
  lemma OneHit(st: Store, id: SegmentId, cid: CapsuleId, size: nat, policy: Policy, p: Prepared)
    requires id in st.log.segs && p.hash in st.reg.content && st.reg.content[p.hash] == id && policy.dedupe && cid !in st.reg.capsules
    ensures var w := SyncWrite(st, cid, size, policy, [Feed(Ok(p), Good)]);
            w.outcome == Ok(cid) && Run(st, w.steps) == Do(Do(st, IncStep(id)), CreateStep(cid, Capsule(size, [id], policy)))
  {
    hide Incremented;
    var feeds := [Feed(Ok(p), Good)];
    assert feeds[..0] == [] && WriteLoop(st, true, feeds[..0]) == LoopState(st, [], [], None);
    RunOne(st, IncStep(id));
    assert WriteLoop(st, true, feeds) == LoopState(Do(st, IncStep(id)), [id], [IncStep(id)], None);
    RunTwo(st, IncStep(id), CreateStep(cid, Capsule(size, [id], policy)));
  }

  /** A write of one new chunk. */
  lemma OneMiss(st: Store, cid: CapsuleId, size: nat, policy: Policy, p: Prepared)
    requires p.hash !in st.reg.content && policy.dedupe && cid !in st.reg.capsules
    ensures var w := SyncWrite(st, cid, size, policy, [Feed(Ok(p), Good)]); var id := st.reg.nextId;
            w.outcome == Ok(cid) && Run(st, w.steps) ==
              Do(Do(AfterTag(st, true, p), RegisterStep(p.hash, id)), CreateStep(cid, Capsule(size, [id], policy)))
  {
    var feed, added := Feed(Ok(p), Good), NewChunkSteps(st, true, p);
    NewChunkRun(st, true, p);
    TaggedCapsules(st, p);
    LoopOnce(st, feed);
    RunSnoc(st, added, CreateStep(cid, Capsule(size, [st.reg.nextId], policy)));
    hide AfterTag, NewChunkSteps, Run, WriteLoop;
    assert WriteChunk(st, true, feed) == ChunkResult(added, Ok(st.reg.nextId));
    assert [] + added == added;
    assert WriteLoop(st, true, [feed]) == LoopState(Run(st, added), [st.reg.nextId], added, None);
  }

  lemma LoopOnce(st: Store, feed: Feed)
    ensures WriteLoop(st, true, [feed]) == LoopStep(LoopState(st, [], [], None), true, feed)
  {
    hide LoopStep;
    assert [feed][..0] == [];
    assert WriteLoop(st, true, []) == LoopState(st, [], [], None);
  }

  lemma TaggedCapsules(st: Store, p: Prepared)
    ensures var end := AfterTag(st, true, p);
            && end.reg == Alloc(st.reg) && end.log.segs.Keys == st.log.segs.Keys + {st.reg.nextId}
  {
    hide Tagged, WriteAt;
  }

  lemma RunTwo(st: Store, a: Step, b: Step)
    ensures Run(st, [a, b]) == Do(Do(st, a), b) && Run(st, [a] + [b]) == Do(Do(st, a), b)
  {
    assert [a, b] == [a] + [b];
    RunSnoc(st, [a], b);
    RunOne(st, a);
  }

  lemma MissInside(env: Env, st: Store, f: multiset<SegmentId>, id: SegmentId, k: nat, cid: CapsuleId, size: nat, policy: Policy, p: Prepared)
    requires Referenced(st) && Allocated(st) && id in st.log.segs && st.log.segs[id].refCount == 1
    requires ReleaseSteps(st, id) == [DecStep(id), DeregisterStep(p.hash, id), RemoveStep(id)]
    requires forall c :: c in st.reg.capsules ==> id !in st.reg.capsules[c].segments
    requires p.hash in st.reg.content && st.reg.content[p.hash] == id && policy.dedupe && cid !in st.reg.capsules && 2 <= k <= 3
    ensures var (outcome, end) := WriteInside(st, id, k, cid, size, policy, p);
            outcome == Ok(cid) && cid in end.reg.capsules && Referenced(end)
  {
    var steps := ReleaseSteps(st, id);
    var mid := Run(st, steps[..k]);
    Releasing(st, id, p.hash, k);
    OneMiss(mid, cid, size, policy, p);
    TaggedCapsules(mid, p);
    hide SyncWrite, ReleaseSteps, AfterTag;
    var made := mid.reg.nextId;
    var written := Do(Do(AfterTag(mid, true, p), RegisterStep(p.hash, made)), CreateStep(cid, Capsule(size, [made], policy)));
    if k == 2 { RunOne(written, RemoveStep(id)); }
    MissEnd(st, mid, id, cid, Capsule(size, [made], policy), p);
    hide Run, Do, Referenced;
  }

  lemma MissEnd(st: Store, mid: Store, id: SegmentId, cid: CapsuleId, c: Capsule, p: Prepared)
    requires Referenced(st) && Allocated(st) && mid.reg.nextId == mid.reg.savedId == st.reg.nextId && mid.reg.capsules == st.reg.capsules
    requires forall j :: j in st.log.segs && j != id ==> j in mid.log.segs
    requires forall c :: c in st.reg.capsules ==> id !in st.reg.capsules[c].segments
    requires c.segments == [mid.reg.nextId] && cid !in st.reg.capsules && id < st.reg.nextId
    ensures var end := Do(Do(AfterTag(mid, true, p), RegisterStep(p.hash, mid.reg.nextId)), CreateStep(cid, c));
            && cid in end.reg.capsules && Referenced(end) && Referenced(Do(end, RemoveStep(id)))
  {
    TaggedCapsules(mid, p);
    hide AfterTag;
  }

  lemma Releasing(st: Store, id: SegmentId, h: ContentHash, k: nat)
    requires id in st.log.segs && st.log.segs[id].refCount == 1 && h in st.reg.content && st.reg.content[h] == id && 2 <= k <= 3
    ensures var steps := [DecStep(id), DeregisterStep(h, id), RemoveStep(id)]; var mid := Run(st, steps[..k]);
            && mid.reg.nextId == st.reg.nextId && mid.reg.savedId == st.reg.nextId && mid.reg.capsules == st.reg.capsules
            && h !in mid.reg.content
            && steps[k..] == (if k == 2 then [RemoveStep(id)] else [])
            && (forall j :: j in st.log.segs && j != id ==> j in mid.log.segs)
  {
    var steps := [DecStep(id), DeregisterStep(h, id), RemoveStep(id)];
    RunTwo(st, steps[0], steps[1]);
    RunSnoc(st, [steps[0], steps[1]], steps[2]);
    assert steps[..2] == [steps[0], steps[1]] && steps[..3] == [steps[0], steps[1]] + [steps[2]];
  }
}
