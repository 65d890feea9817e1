/** The two collectors side by side: the engine's recount and sweep, and the trait pipeline's mark and sweep. */
module Collectors {
  import opened Types
  import opened NvramSim
  import opened Registry
  import opened Store
  import opened Recovery
  import opened Modular

  /** The store as the trait pipeline sees it: records, readable bytes, capsules and content index. */
  function Seen(st: Store): Mod {
    Mod(st.log.segs, map id | id in st.log.segs && RawOf(st.log, id).Some? :: RawOf(st.log, id).value,
        st.reg.capsules, st.reg.content, st.reg.nextId)
  }

  /** A segment that capsules name has a count, and the recount of it does not wrap to zero; or both have failed. */
  ghost predicate BothCount(st: Store, id: SegmentId)
    requires id in st.log.segs
  {
    st.log.segs[id].refCount > 0 <==> AsU32(Refs(st.reg.capsules)[id]) != 0
  }

  ghost predicate SameLeft(st: Store) {
    && Collected(Seen(st)).meta.Keys == Seen(Reconciled(st)).meta.Keys
    && Collected(Seen(st)).data == Seen(Reconciled(st)).data
    && Collected(Seen(st)).content == Seen(Reconciled(st)).content
  }

  /** Run on the same store, whatever its counts, `garbage_collect` and the start-up pass leave the same segments, bytes
      and content entries exactly when every segment that a capsule names still has a count (and the recount does not
      wrap to zero). */
  lemma CollectorsAgreeIff(st: Store)
    requires Indexed(st)
    ensures OneHashEach(Seen(st).content)
    ensures SameLeft(st) <==> forall id :: id in st.log.segs && id in Refs(st.reg.capsules) ==> BothCount(st, id)
  {
    hide Reconciled, Refs, AsU32, Collected, BothCount;
    CollectLeaves(Seen(st));
    ReconciledContents(st);
    ZeroWraps();
    if forall id :: id in st.log.segs && id in Refs(st.reg.capsules) ==> BothCount(st, id) {
      SameSegments(st);
      SameData(st);
      SameContent(st);
    } else {
      var id :| id in st.log.segs && id in Refs(st.reg.capsules) && !BothCount(st, id);
      OnlyOneLeaves(st, id);
    }
  }

  lemma SameSegments(st: Store)
    requires forall id :: id in st.log.segs && id in Refs(st.reg.capsules) ==> BothCount(st, id)
    ensures Collected(Seen(st)).meta.Keys == Seen(Reconciled(st)).meta.Keys
  {
    hide Reconciled, Refs, AsU32, Collected;
    CollectLeaves(Seen(st));
    ReconciledContents(st);
    ZeroWraps();
    forall id ensures id in Collected(Seen(st)).meta <==> id in Reconciled(st).log.segs {
      if id in st.log.segs && id in Refs(st.reg.capsules) { assert BothCount(st, id); }
    }
  }

  lemma OnlyOneLeaves(st: Store, id: SegmentId)
    requires id in st.log.segs && id in Refs(st.reg.capsules) && !BothCount(st, id)
    ensures id in Collected(Seen(st)).meta <==> id !in Seen(Reconciled(st)).meta
  {
    hide Reconciled, Refs, AsU32, Collected;
    CollectLeaves(Seen(st));
    ReconciledContents(st);
  }

  lemma SameData(st: Store)
    requires Collected(Seen(st)).meta.Keys == Seen(Reconciled(st)).meta.Keys
    ensures Collected(Seen(st)).data == Seen(Reconciled(st)).data
  {
    hide Reconciled, Collected, RawOf;
    var a, b := Collected(Seen(st)).data, Seen(Reconciled(st)).data;
    forall id ensures (id in a <==> id in b) && (id in a ==> a[id] == b[id]) {
      CollectedAt(Seen(st), id);
      if id in Reconciled(st).log.segs { SameRaw(st, id); }
    }
  }

  lemma CollectedAt(m: Mod, id: SegmentId)
    requires m.data.Keys <= m.meta.Keys
    ensures id in Collected(m).data <==> id in m.data && id in Collected(m).meta
    ensures id in Collected(m).meta ==> id in m.meta
    ensures id in Collected(m).data ==> Collected(m).data[id] == m.data[id]
  {
    hide Garbage;
    CollectedParts(m);
  }

  lemma SameRaw(st: Store, id: SegmentId)
    requires id in Reconciled(st).log.segs
    ensures id in st.log.segs && RawOf(Reconciled(st).log, id) == RawOf(st.log, id)
  {
    hide Reconciled, Refs, AsU32;
    ReconciledContents(st);
  }

  lemma SameContent(st: Store)
    requires Indexed(st) && Collected(Seen(st)).meta.Keys == Seen(Reconciled(st)).meta.Keys
    ensures Collected(Seen(st)).content == Seen(Reconciled(st)).content
  {
    hide Reconciled, Refs, AsU32, Collected;
    ReconciledContents(st);
    CollectedParts(Seen(st));
    hide Garbage;
  }
}
