/** Garbage collection, start-up reconciliation, and what both do to a store that a crash left behind. */
module Recovery {
  import opened Types
  import opened Codec
  import opened NvramSim
  import opened Registry
  import opened Store

  // ---------------------------------------------------------------- sweep

  /** A content entry that the sweep of the segments in `done` takes away. */
  predicate Purged(st: Store, done: set<SegmentId>, h: ContentHash)
    requires h in st.reg.content
  {
    var id := st.reg.content[h];
    id in done && id in st.log.segs && st.log.segs[id].refCount == 0 && st.log.segs[id].contentHash == Some(h)
  }

  /** The store after a sweep has visited the segments in `done`, in whatever order. */
  function SweptSome(st: Store, done: set<SegmentId>): Store {
    var segs := map id | id in st.log.segs && !(id in done && st.log.segs[id].refCount == 0) :: st.log.segs[id];
    var content := map h | h in st.reg.content && !Purged(st, done, h) :: st.reg.content[h];
    Store(st.log.(segs := segs),
          st.reg.(content := content, savedId := if content == st.reg.content then st.reg.savedId else st.reg.nextId))
  }

  function Swept(st: Store): Store { SweptSome(st, st.log.segs.Keys) }

  // ---------------------------------------------------------------- reconcile

  function Fixed(s: Segment, expected: nat): Segment {
    if s.refCount == expected then s else s.(refCount := expected, deduplicated := expected > 1)
  }

  /** The store after the counts of the segments in `done` have been recomputed, in 32 bits. */
  ghost function FixedSome(st: Store, done: set<SegmentId>): Store {
    var refs := Refs(st.reg.capsules);
    st.(log := st.log.(segs :=
      map id | id in st.log.segs :: if id in done then Fixed(st.log.segs[id], AsU32(refs[id])) else st.log.segs[id]))
  }

  ghost function FixedAll(st: Store): Store { FixedSome(st, st.log.segs.Keys) }

  ghost function Reconciled(st: Store): Store { Swept(FixedAll(st)) }

  /** Opening both files after a crash: all that memory held beyond them is gone. */
  function Opened(st: Store): Store { Store(Reopened(st.log), Reloaded(st.reg)) }

  /** The collector finds nothing to do between operations that left no dead segment. */
  lemma SweepIdle(st: Store)
    requires NoZero(st.log)
    ensures Swept(st) == st
  {
    assert Swept(st).log.segs == st.log.segs;
    assert Swept(st).reg.content == st.reg.content;
  }

  lemma ReconciledContents(st: Store)
    ensures var r := Reconciled(st); var refs := Refs(st.reg.capsules);
            && r.reg.capsules == st.reg.capsules && r.log.file == st.log.file && r.log.next == st.log.next
            && r.reg.nextId == st.reg.nextId && (r.reg.savedId == st.reg.savedId || r.reg.savedId == st.reg.nextId)
            && (forall id :: id in r.log.segs <==> id in st.log.segs && AsU32(refs[id]) != 0)
            && (forall id :: id in r.log.segs ==> r.log.segs[id] == Fixed(st.log.segs[id], AsU32(refs[id])))
            && (forall h :: h in r.reg.content ==> h in st.reg.content && r.reg.content[h] == st.reg.content[h])
            && (Indexed(st) ==> forall h :: h in st.reg.content ==> (h in r.reg.content <==> AsU32(refs[st.reg.content[h]]) != 0))
  {
    hide AsU32;
    var a := FixedAll(st);
    assert forall id :: id in a.log.segs ==> a.log.segs[id] == Fixed(st.log.segs[id], AsU32(Refs(st.reg.capsules)[id]));
  }

  /** No segment has more references than the recount can count. */
  ghost predicate Countable(st: Store) {
    forall id :: id in st.log.segs ==> Refs(st.reg.capsules)[id] <= U32_MAX
  }

  lemma CountableRecount(st: Store)
    requires Countable(st)
    ensures forall id :: id in st.log.segs ==> AsU32(Refs(st.reg.capsules)[id]) == Refs(st.reg.capsules)[id]
  {
  }

  /** From any counts whatever over a consistent store, as long as no segment has 2^32 references: exact counts,
      no unreferenced segment, and no content entry but those naming live segments; and in any case a second run
      is idle. */
  lemma ReconcileConverges(env: Env, st: Store)
    requires Consistent(env, st) && st.reg.savedId <= st.reg.nextId
    ensures var r := Reconciled(st);
            Countable(st) ==>
              && Consistent(env, r) && Counted(r, multiset{}) && NoZero(r.log) && Bounded(r.log) && Allocated(r)
              && (forall id :: id in st.log.segs ==> (id in r.log.segs <==> id in Refs(st.reg.capsules)))
              && (forall h :: h in st.reg.content ==> (h in r.reg.content <==> st.reg.content[h] in r.log.segs))
              && r.reg.capsules == st.reg.capsules
    ensures Reconciled(Reconciled(st)) == Reconciled(st)
  {
    hide Reconciled, Refs, AsU32, Countable, LogOk, Hashed;
    if Countable(st) {
      CountableRecount(st);
      ReconciledContents(st);
      ReconciledNames(env, st);
      ReconciledLog(env, st);
    }
    ReconcileIdle(st);
  }

  /** The bound is exact: past it, a count comes out wrong or a referenced segment is reclaimed. */
  lemma ReconcileExactIff(env: Env, st: Store)
    requires Consistent(env, st) && st.reg.savedId <= st.reg.nextId
    ensures Countable(st) <==> Counted(Reconciled(st), multiset{}) && Referenced(Reconciled(st))
  {
    hide Reconciled, Refs, LogOk, Hashed;
    var r, refs := Reconciled(st), Refs(st.reg.capsules);
    ReconciledContents(st);
    if Countable(st) {
      CountableRecount(st);
      ReconciledNames(env, st);
    } else {
      var id :| id in st.log.segs && refs[id] > U32_MAX;
      RefsMember(st.reg.capsules, id);
      if id in r.log.segs { assert r.log.segs[id].refCount == AsU32(refs[id]) != refs[id]; }
    }
  }

  lemma ReconciledNames(env: Env, st: Store)
    requires Referenced(st) && Indexed(st) && st.reg.savedId <= st.reg.nextId && Countable(st)
    ensures var r := Reconciled(st);
            Referenced(r) && Indexed(r) && Allocated(r) && Counted(r, multiset{}) && NoZero(r.log) && Bounded(r.log)
  {
    hide Reconciled, Refs, AsU32, Counted;
    ReconciledContents(st);
    CountableRecount(st);
    ReconciledReferences(st);
    ReconciledCounts(st);
    forall id | id in Reconciled(st).log.segs ensures id < st.reg.nextId { RefsMember(st.reg.capsules, id); }
  }

  lemma ReconciledCounts(st: Store)
    requires Referenced(st) && Countable(st)
    ensures var r := Reconciled(st); Counted(r, multiset{}) && NoZero(r.log) && Bounded(r.log)
  {
    ReconciledContents(st);
    CountableRecount(st);
    hide Reconciled, Refs, AsU32;
    var r := Reconciled(st);
    forall id | id in Refs(r.reg.capsules) ensures id in r.log.segs {
      RefsMember(st.reg.capsules, id);
    }
  }

  lemma ReconciledReferences(st: Store)
    requires Referenced(st) && Countable(st) && st.reg.savedId <= st.reg.nextId
    ensures Referenced(Reconciled(st))
  {
    ReconciledContents(st);
    CountableRecount(st);
    hide Reconciled, Refs, AsU32;
    var r := Reconciled(st);
    forall c, id | c in r.reg.capsules && id in r.reg.capsules[c].segments ensures id in r.log.segs && id < r.reg.savedId {
      RefsMember(st.reg.capsules, id);
    }
  }

  lemma ReconciledLog(env: Env, st: Store)
    requires LogOk(st.log) && Hashed(env, st.log)
    ensures LogOk(Reconciled(st).log) && Hashed(env, Reconciled(st).log)
  {
    ReconciledContents(st);
    hide Reconciled, Refs, AsU32;
    var r := Reconciled(st);
    forall id | id in r.log.segs ensures HashedAt(env, r.log, id) {
      assert Kept(st.log, r.log, id) && HashedAt(env, st.log, id);
      KeptHashed(env, st.log, r.log, id);
    }
  }

  lemma ReconcileIdle(st: Store)
    ensures Reconciled(Reconciled(st)) == Reconciled(st)
  {
    ReconciledContents(st);
    hide Refs, AsU32;
    var r := Reconciled(st);
    assert FixedAll(r).log.segs == r.log.segs;
    SweepIdle(r);
  }

  lemma ReconcileKeepsReads(env: Env, st: Store, cid: CapsuleId)
    requires Consistent(env, st) && Countable(st) && cid in st.reg.capsules
    ensures CapsuleBytes(env, Reconciled(st), cid) == CapsuleBytes(env, st, cid)
  {
    var r := Reconciled(st);
    ReconciledContents(st);
    CountableRecount(st);
    hide Reconciled, Refs, AsU32;
    forall id | id in st.reg.capsules[cid].segments ensures id in st.log.segs && Kept(st.log, r.log, id) {
      RefsMember(st.reg.capsules, id);
    }
    KeptReads(env, st.log, r.log, st.reg.capsules[cid].policy.compression, st.reg.capsules[cid].segments);
  }

  /** The flag is only rewritten together with a wrong count. */
  lemma ReconcileFlagsIff(st: Store)
    ensures Flagged(Reconciled(st).log) <==>
      forall id :: id in st.log.segs && st.log.segs[id].refCount == AsU32(Refs(st.reg.capsules)[id]) > 0 ==>
        (st.log.segs[id].deduplicated <==> st.log.segs[id].refCount > 1)
  {
    ReconciledContents(st);
    hide Refs, AsU32;
    var r, refs := Reconciled(st), Refs(st.reg.capsules);
    forall id | id in st.log.segs && st.log.segs[id].refCount == AsU32(refs[id]) > 0
      ensures id in r.log.segs && r.log.segs[id] == st.log.segs[id]
    {
    }
  }

  // ---------------------------------------------------------------- crashes

  lemma OpenedConsistent(env: Env, st: Store, f: multiset<SegmentId>)
    requires Inv(env, st, f)
    ensures Consistent(env, Opened(st)) && Flagged(Opened(st).log) && Countable(Opened(st))
    ensures forall c :: c in st.reg.capsules ==> CapsuleBytes(env, Opened(st), c) == CapsuleBytes(env, st, c)
  {
    var o := Opened(st);
    forall id | id in st.log.segs ensures Kept(st.log, o.log, id) && HashedAt(env, o.log, id) {
      KeptHashed(env, st.log, o.log, id);
    }
    forall c | c in st.reg.capsules ensures CapsuleBytes(env, o, c) == CapsuleBytes(env, st, c) {
      KeptReads(env, st.log, o.log, st.reg.capsules[c].policy.compression, st.reg.capsules[c].segments);
    }
  }

  /** Crash recovery: whatever an unfinished operation held, reopening and reconciling leaves a clean store
      with the capsules the metadata file knew, each reading as it did, and hands out only fresh ids. */
  lemma CrashCleans(env: Env, st: Store, f: multiset<SegmentId>)
    requires Inv(env, st, f)
    ensures var r := Reconciled(Opened(st));
            && Clean(env, r) && r.reg.capsules == st.reg.capsules
            && (forall id :: id in r.log.segs <==> id in Refs(st.reg.capsules))
            && (forall c :: c in st.reg.capsules ==> CapsuleBytes(env, r, c) == CapsuleBytes(env, st, c))
  {
    var o := Opened(st);
    OpenedConsistent(env, st, f);
    ReconcileConverges(env, o);
    ReconcileFlagsIff(o);
    forall id | id in Refs(st.reg.capsules) ensures id in o.log.segs {
      RefsMember(st.reg.capsules, id);
    }
    ReconciledContents(o);
    forall c | c in st.reg.capsules ensures CapsuleBytes(env, Reconciled(o), c) == CapsuleBytes(env, st, c) {
      ReconcileKeepsReads(env, o, c);
    }
  }

  lemma CrashRecovers(env: Env, st: Store, f: multiset<SegmentId>, view: map<CapsuleId, Entry>)
    requires Inv(env, st, f) && Shows(env, st, view)
    ensures var r := Reconciled(Opened(st));
            && Clean(env, r) && Shows(env, r, view) && r.reg.capsules == st.reg.capsules
            && (forall id :: id in r.log.segs <==> id in Refs(st.reg.capsules))
  {
    hide Inv, Clean, Reconciled, Opened, Refs, CapsuleBytes;
    CrashCleans(env, st, f);
  }

  /** Crashing inside the recovery itself changes nothing: from any point of the recount, and from any point
      of the sweep (also between the loss of a content entry and that of its segment), opening the files again
      and reconciling ends the same. */
  lemma RecoveryRestarts(crashed: Store, done: set<SegmentId>, h: ContentHash, id: SegmentId)
    ensures var st := Opened(crashed);
            && Reconciled(Opened(FixedSome(st, done))) == Reconciled(st)
            && Reconciled(Opened(SweptSome(FixedAll(st), done))) == Reconciled(st)
    ensures var st := Opened(crashed); var mid := SweptSome(FixedAll(st), done);
            id in mid.log.segs && mid.log.segs[id].refCount == 0 && mid.log.segs[id].contentHash == Some(h) ==>
              Reconciled(Opened(Do(mid, DeregisterStep(h, id)))) == Reconciled(st)
  {
    var st := Opened(crashed);
    var mid := SweptSome(FixedAll(st), done);
    RecoveryIsOpened(crashed, done, h, id);
    hide Opened, FixedSome, Reconciled, SweptSome;
    RecoveryResumes(st, done, h, id);
  }

  /** The recovery moves neither allocator. */
  lemma RecoveryIsOpened(crashed: Store, done: set<SegmentId>, h: ContentHash, id: SegmentId)
    ensures var st := Opened(crashed); var mid := SweptSome(FixedAll(st), done);
            && Opened(FixedSome(st, done)) == FixedSome(st, done) && Opened(mid) == mid
            && Opened(Do(mid, DeregisterStep(h, id))) == Do(mid, DeregisterStep(h, id))
  {
    hide Refs;
  }

  lemma RecoveryResumes(st: Store, done: set<SegmentId>, h: ContentHash, id: SegmentId)
    ensures Reconciled(FixedSome(st, done)) == Reconciled(st)
    ensures Reconciled(SweptSome(FixedAll(st), done)) == Reconciled(st)
    ensures var mid := SweptSome(FixedAll(st), done);
            id in mid.log.segs && mid.log.segs[id].refCount == 0 && mid.log.segs[id].contentHash == Some(h) ==>
              Reconciled(Do(mid, DeregisterStep(h, id))) == Reconciled(st)
  {
    RestartRecount(st, done);
    var a := FixedAll(st);
    assert Recounted(a);
    var mid := SweptSome(a, done);
    RestartSweep(a, mid, done);
    hide FixedSome, Swept, SweptSome;
    assert Reconciled(mid) == Swept(a) == Reconciled(st);
    RecountedIdle(mid);
    if id in mid.log.segs && mid.log.segs[id].refCount == 0 && mid.log.segs[id].contentHash == Some(h) {
      RestartUnlisted(a, mid, h, id);
    }
  }

  lemma RestartRecount(st: Store, done: set<SegmentId>)
    ensures Reconciled(FixedSome(st, done)) == Reconciled(st)
  {
    assert FixedAll(FixedSome(st, done)).log.segs == FixedAll(st).log.segs;
  }

  lemma RecountedIdle(a: Store)
    requires Recounted(a)
    ensures FixedAll(a) == a && Reconciled(a) == Swept(a)
  {
    assert FixedAll(a).log.segs == a.log.segs;
  }

  /** `a` is recounted: every count is the number of references. */
  ghost predicate Recounted(a: Store) {
    forall id :: id in a.log.segs ==> a.log.segs[id].refCount == AsU32(Refs(a.reg.capsules)[id])
  }

  lemma RestartSweep(a: Store, mid: Store, done: set<SegmentId>)
    requires Recounted(a) && mid == SweptSome(a, done)
    ensures Reconciled(mid) == Swept(a) && Recounted(mid)
  {
    assert FixedAll(mid).log.segs == mid.log.segs;
    assert Swept(mid).log.segs == Swept(a).log.segs;
    forall h ensures h in Swept(mid).reg.content <==> h in Swept(a).reg.content {
    }
    assert Swept(mid).reg.content == Swept(a).reg.content;
  }

  lemma RestartUnlisted(a: Store, mid: Store, h: ContentHash, id: SegmentId)
    requires Recounted(mid) && Swept(mid) == Swept(a)
    requires id in mid.log.segs && mid.log.segs[id].refCount == 0 && mid.log.segs[id].contentHash == Some(h)
    ensures Reconciled(Do(mid, DeregisterStep(h, id))) == Swept(a)
  {
    var d := Do(mid, DeregisterStep(h, id));
    assert FixedAll(d).log.segs == d.log.segs;
    assert Swept(d).log.segs == Swept(mid).log.segs;
    assert Swept(d).reg.content == Swept(mid).reg.content;
  }

  // ---------------------------------------------------------------- counting in 32 bits

  lemma ZeroWraps()
    ensures AsU32(0) == 0
  {
  }
}
